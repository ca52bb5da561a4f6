# Planeacion — interaction logic of the municipal portal front end

This project is a Dafny model of the stateful parts of the Planeacion
municipal website, a React and TypeScript single-page application. It
covers six components:

- **ImageCarousel.** The landing-page slideshow. It has a looping `active`
  index, arrow buttons, a play/pause toggle, an autoplay tick and a
  40-pixel swipe recogniser.
- **Allies.** The allies strip: four cards shown one to four at a time,
  depending on the breakpoint. It moves with arrows that never wrap,
  re-clamps when the viewport changes, and has indicator dots.
- **ThankYouSection.** The acknowledgements strip: three cards. Its page
  width is capped at the number of cards, which also decides when the
  track is centred.
- **Features.** The procedures grid: nine cards to a page, cut out with
  JavaScript's `Array.prototype.slice`.
- **Sesion.** The login page. It validates the fields in a fixed order,
  calls the demo authentication stub (password `123456`), and stores the
  token in `localStorage` or in `sessionStorage` depending on
  "recordarme".
- **Nav.** The navigation bar. Its debounced search box trims the query,
  ignores anything shorter than two UTF-16 code units, and navigates to
  `/land/buscar/<encodeURIComponent(q)>` unless that route is already
  shown. It also has the drawer and search-dialog flags.

Components whose state React updates in place are modelled as classes.
Their methods are proved against pure functions (`Next`, `StepForward`,
`Clamp`, `PageItems`, `SubmitOutcome`, `AfterFire`), and the
properties the application relies on are lemmas about those functions.
Four supporting modules are shared:

- `PagedStrip` holds the index arithmetic of the two strips.
- `Text` holds ECMAScript white space, `trim` and UTF-16 `length`.
- `UriEncoding` holds `encodeURIComponent`, with a decoder proving it
  injective.
- `IntMath` holds `Math.ceil` of a quotient.

Three behaviours of the code are easy to miss:

- **Indicator dots are not clamped.** Clicking a dot sets the offset to
  `i * itemsPerView` with no clamp. At three cards per view, the second
  allies dot moves the strip past `maxStart` (offset 3 > 1). The same
  happens for the second acknowledgements dot at two cards per view. See
  `Allies.IndicatorLeavesRangeExactly` and
  `ThankYouSection.IndicatorLeavesRangeExactly`.
- **A swipe does not stop autoplay.** Only the arrow buttons call
  `setPlaying(false)`, so `OnTouchEnd` leaves `playing` alone.
- **The re-clamp runs only when the page width changes.** The clamp
  effect depends on `[itemsPerView, maxStart]` (Allies) or on
  `[visibleCount, maxStart]` (ThankYouSection). An out-of-range offset left
  by a dot is therefore not pulled back by the re-clamp until the width
  changes; next stays disabled there, and only the previous arrow or
  another dot returns the strip to range (`Allies.ThreePerViewDotThenPrev`).

## Model

| member | source | states |
|---|---|---|
| IntMath.CeilDiv | src/app/public/components/Allies.tsx:57 | `Math.ceil(a / b)` is the least count of `b`-sized groups covering `a` items |
| ImageCarousel.Next | src/app/public/components/ImageCarousel.tsx:62 | the next slide index stays below N; it is `a + 1`, wrapping from N-1 to 0 |
| ImageCarousel.Back | src/app/public/components/ImageCarousel.tsx:63-64 | the previous slide index stays below N; it is `a - 1`, wrapping from 0 to N-1 |
| ImageCarousel.BackNextInverse | src/app/public/components/ImageCarousel.tsx:62-64 | Back undoes Next and Next undoes Back on every in-range index |
| ImageCarousel.NextSteps | src/app/public/components/ImageCarousel.tsx:67-73 | repeated autoplay steps keep the index in range |
| ImageCarousel.NextStepsNoWrap | src/app/public/components/ImageCarousel.tsx:62 | `k` steps that do not reach the end add `k` to the index |
| ImageCarousel.NextStepsCompose | src/app/public/components/ImageCarousel.tsx:67-73 | `j` steps followed by `k` steps are `j + k` steps |
| ImageCarousel.FullCycle | src/app/public/components/ImageCarousel.tsx:67-73 | N autoplay steps return to the starting slide |
| ImageCarousel.Recognise | src/app/public/components/ImageCarousel.tsx:54-58 | a move of more than 40 px left advances and more than 40 px right goes back (both directions); anything else is ignored |
| ImageCarousel.AfterSwipe | src/app/public/components/ImageCarousel.tsx:55-58 | a recognised swipe applies Next or Back and keeps the index in range; no swipe keeps the slide |
| ImageCarousel.Slideshow.constructor | src/app/public/components/ImageCarousel.tsx:43-46 | a new slideshow shows slide 0, plays iff autoplay is set, and records no touch |
| ImageCarousel.Slideshow.OnTouchStart | src/app/public/components/ImageCarousel.tsx:48-50 | records the start x; the slide and play state are unchanged |
| ImageCarousel.Slideshow.OnTouchEnd | src/app/public/components/ImageCarousel.tsx:52-60 | without a start it does nothing; otherwise it applies the recognised swipe, forgets the start and leaves `playing` as it was |
| ImageCarousel.Slideshow.ClickNextArrow | src/app/public/components/ImageCarousel.tsx:196-199 | stops autoplay, then advances with wrap-around |
| ImageCarousel.Slideshow.ClickBackArrow | src/app/public/components/ImageCarousel.tsx:177-180 | stops autoplay, then goes back with wrap-around |
| ImageCarousel.Slideshow.TogglePlay | src/app/public/components/ImageCarousel.tsx:216 | flips `playing` and changes nothing else |
| ImageCarousel.Slideshow.AutoplayTick | src/app/public/components/ImageCarousel.tsx:67-73 | advances only while playing; a tick while paused changes nothing |
| PagedStrip.ItemsPerView | src/app/public/components/Allies.tsx:34-38 | the breakpoint picks 1, 2, 3 or 4 cards; the first true media query wins (each case iff) |
| PagedStrip.MaxStart | src/app/public/components/Allies.tsx:40 | the largest offset that still fills the view: never below 0, and when positive the last page ends exactly at the last card |
| PagedStrip.StepForward | src/app/public/components/Allies.tsx:53-55 | next moves one full page forward when that page fits, and otherwise lands on `maxStart`; it stays put iff already at `maxStart` |
| PagedStrip.StepBack | src/app/public/components/Allies.tsx:49-51 | previous moves one page back, floored at 0 without wrapping, and stays put iff already at 0 |
| PagedStrip.Clamp | src/app/public/components/Allies.tsx:44-47 | the re-clamp keeps an in-range offset and pulls an out-of-range one back to `maxStart` |
| PagedStrip.PageCount | src/app/public/components/Allies.tsx:57 | the number of dots covers every card with no spare page, and is at least 1 when there are cards |
| PagedStrip.CurrentPage | src/app/public/components/Allies.tsx:58 | the highlighted dot is the page whose span contains the offset |
| PagedStrip.IndicatorStart | src/app/public/components/Allies.tsx:211-213 | clicking dot `i` highlights dot `i` |
| PagedStrip.IndicatorHighlightsItsPage | src/app/public/components/Allies.tsx:211-213 | `floor(i * width / width) == i` |
| PagedStrip.DisabledHandlersAreNoOps | src/app/public/components/Allies.tsx:166-188 | in range, a disabled arrow's handler would not have moved the strip |
| PagedStrip.PrevDisabled | src/app/public/components/Allies.tsx:168 | the previous button is disabled exactly at offset 0 (also ThankYouSection.tsx line 174) |
| PagedStrip.NextDisabled | src/app/public/components/Allies.tsx:188 | in range, the next button is disabled exactly at `maxStart`; past it, always (also ThankYouSection.tsx line 194) |
| PagedStrip.ClickForward | src/app/public/components/Allies.tsx:186-188 | in range the disabled guard changes nothing; past `maxStart` (after a dot jump) the disabled button leaves the strip out of range, where the handler alone would have pulled it back |
| PagedStrip.ClickBack | src/app/public/components/Allies.tsx:166-168 | clicking previous, disabled or not, is exactly one step back |
| PagedStrip.ClicksStayInRange | src/app/public/components/Allies.tsx:49-55 | any sequence of arrow clicks keeps an in-range offset in range |
| PagedStrip.ForwardReachesEnd | src/app/public/components/Allies.tsx:53-55 | enough next clicks from any in-range offset end at `maxStart` |
| PagedStrip.ForwardStaysAtEnd | src/app/public/components/Allies.tsx:186-188 | next clicks at `maxStart` leave the strip there |
| Allies.AlliesMaxStart | src/app/public/components/Allies.tsx:40 | `maxStart` for the four allies is `4 - itemsPerView` |
| Allies.LayoutTable | src/app/public/components/Allies.tsx:38-58 | (maxStart, pageCount) is (3,4), (2,2), (1,2), (0,1) for 1 to 4 cards per view |
| Allies.IndicatorLeavesRangeExactly | src/app/public/components/Allies.tsx:208-211 | a drawn dot jumps past `maxStart` iff it is the second dot at three cards per view |
| Allies.AlliesStrip.constructor | src/app/public/components/Allies.tsx:38-42 | the strip mounts at offset 0 with the breakpoint's width |
| Allies.AlliesStrip.ViewportChange | src/app/public/components/Allies.tsx:44-47 | a new breakpoint sets the width and re-clamps only if the width changed |
| Allies.AlliesStrip.ClickPrev | src/app/public/components/Allies.tsx:166-168 | previous steps one page back and keeps the offset in range |
| Allies.AlliesStrip.ClickNext | src/app/public/components/Allies.tsx:186-188 | next is ignored when disabled, else steps forward; it keeps the offset in range |
| Allies.AlliesStrip.ClickIndicator | src/app/public/components/Allies.tsx:211 | the dot sets the offset to `i * itemsPerView` and that dot is highlighted |
| ThankYouSection.VisibleCount | src/app/public/components/ThankYouSection.tsx:39 | the page width is `itemsPerView` capped at the three cards |
| ThankYouSection.ThanksMaxStart | src/app/public/components/ThankYouSection.tsx:42 | `maxStart + visibleCount == 3`, and `maxStart` is 0 iff three or more cards fit |
| ThankYouSection.Centred | src/app/public/components/ThankYouSection.tsx:108 | the track is centred iff the breakpoint asks for at least as many cards as there are |
| ThankYouSection.LayoutTable | src/app/public/components/ThankYouSection.tsx:36-61 | (maxStart, pageCount) is (2,3), (1,2), then (0,1) from three cards per view on |
| ThankYouSection.AllVisibleIsStatic | src/app/public/components/ThankYouSection.tsx:108 | the track is centred iff all three cards fit, iff `maxStart` is 0; both arrows are then disabled |
| ThankYouSection.IndicatorLeavesRangeExactly | src/app/public/components/ThankYouSection.tsx:214-217 | a drawn dot jumps past `maxStart` iff it is the second dot at two cards per view |
| ThankYouSection.ThanksStrip.constructor | src/app/public/components/ThankYouSection.tsx:36-44 | the strip mounts at offset 0 |
| ThankYouSection.ThanksStrip.ViewportChange | src/app/public/components/ThankYouSection.tsx:46-49 | re-clamps only when `visibleCount` changes, not merely `itemsPerView` |
| ThankYouSection.ThanksStrip.ClickPrev | src/app/public/components/ThankYouSection.tsx:51-53 | previous steps back by `visibleCount` and keeps the offset in range |
| ThankYouSection.ThanksStrip.ClickNext | src/app/public/components/ThankYouSection.tsx:55-57 | next is ignored when disabled, else steps forward by `visibleCount`; it keeps the offset in range |
| ThankYouSection.ThanksStrip.ClickIndicator | src/app/public/components/ThankYouSection.tsx:217 | the dot sets the offset to `i * visibleCount` and that dot is highlighted |
| Features.SliceBound | src/app/public/components/Features.tsx:88 | a slice bound counts from the end when negative and is capped at the length |
| Features.Slice | src/app/public/components/Features.tsx:88 | `slice` with in-range bounds is the subsequence; a start at or past the end gives `[]` |
| Features.PageCount | src/app/public/components/Features.tsx:81 | the pager count covers every procedure with no spare page |
| Features.PageItems | src/app/public/components/Features.tsx:87-88 | a page never shows more than nine cards |
| Features.TwoPagesOfFeatures | src/app/public/components/Features.tsx:79-81 | the twelve procedures make two pages |
| Features.PageWithinRange | src/app/public/components/Features.tsx:87-88 | an in-range page shows the next `min(9, len - (page-1)*9)` items and is never empty |
| Features.PageBeyondRange | src/app/public/components/Features.tsx:87-88 | a page past the last shows nothing |
| Features.FeaturePages | src/app/public/components/Features.tsx:79-88 | with twelve items, page 1 is items 0-8, page 2 is items 9-11, page 3 is empty |
| Features.PagesUpToIsPrefix | src/app/public/components/Features.tsx:87-88 | pages 1..k laid end to end are the first `min(9k, len)` items |
| Features.PagesPartitionList | src/app/public/components/Features.tsx:81-88 | pages 1..pageCount together reproduce the list exactly once, in order |
| Features.ItemOnItsPage | src/app/public/components/Features.tsx:87-88 | item `j` is card `j mod 9` of page `j div 9 + 1` |
| Features.FeaturesGrid.constructor | src/app/public/components/Features.tsx:78 | the grid opens on page 1 |
| Features.FeaturesGrid.HandleChange | src/app/public/components/Features.tsx:83-85 | the pager stores the chosen page as it is |
| Features.FeaturesGrid.SelectedFeatures | src/app/public/components/Features.tsx:87-88 | the rendered cards are the selected page's items, non-empty for an in-range page |
| Text.TrimStart | src/app/shared/nav/Nav.tsx:75 | removes exactly the leading white space |
| Text.TrimEnd | src/app/shared/nav/Nav.tsx:75 | removes exactly the trailing white space |
| Text.LeadingSpace | src/app/shared/nav/Nav.tsx:75 | the length of the white space the input starts with: all white space before it, none at it |
| Text.Trim | src/app/shared/nav/Nav.tsx:75-76 | `trim()` is the input with exactly its leading and trailing white space cut off: it starts right after the leading white space, only white space follows it, and its own ends are not white space; it is empty iff the input is all white space |
| Text.Utf16Length | src/app/shared/nav/Nav.tsx:78 | `length` counts between one and two code units per character |
| UriEncoding.Utf8 | src/app/shared/nav/Nav.tsx:79 | a code point becomes one to four bytes |
| UriEncoding.PercentByte | src/app/shared/nav/Nav.tsx:79 | a byte becomes `%` and two upper-case hex digits |
| UriEncoding.PercentBytes | src/app/shared/nav/Nav.tsx:79 | bytes become three encoded characters each |
| UriEncoding.EncodeChar | src/app/shared/nav/Nav.tsx:79 | unreserved characters pass through; others become `%` escapes |
| UriEncoding.Encode | src/app/shared/nav/Nav.tsx:79 | the result contains only unreserved characters, `%` and hex digits |
| UriEncoding.EncodedIsOneSegment | src/app/shared/nav/Nav.tsx:79 | an encoded query contains no `/` and no space |
| UriEncoding.EncodeKeepsUnreserved | src/app/shared/nav/Nav.tsx:79 | a query of unreserved characters is left unchanged |
| UriEncoding.Utf8RoundTrip | src/app/shared/nav/Nav.tsx:79 | the UTF-8 lead byte announces the right length and the bytes reassemble the code point |
| UriEncoding.ParseBytesOfPercentBytes | src/app/shared/nav/Nav.tsx:79 | reading `%XY` groups recovers the bytes |
| UriEncoding.DecodeEncodeChar | src/app/shared/nav/Nav.tsx:79 | decoding an encoded character recovers it |
| UriEncoding.DecodeEncode | src/app/shared/nav/Nav.tsx:79 | decoding the encoding gives the original text back |
| UriEncoding.EncodeInjective | src/app/shared/nav/Nav.tsx:79-80 | different queries have different encodings |
| Sesion.EmailShapeIsPattern | src/app/public/pages/Sesion.tsx:72-73 | the executable check holds iff the regular expression matches (both directions) |
| Sesion.AcceptedEmailAnatomy | src/app/public/pages/Sesion.tsx:72 | an accepted e-mail has exactly one `@`, no white space, a non-empty part before the `@`, and a `.` strictly inside the domain |
| Sesion.Validate | src/app/public/pages/Sesion.tsx:66-78 | the missing-fields message iff trimmed e-mail or raw password is empty; the format message iff present but the pattern fails; pass iff both hold |
| Sesion.SurroundingSpaceRejected | src/app/public/pages/Sesion.tsx:68-75 | a surrounding space passes the presence check but fails the format check |
| Sesion.Authenticate | src/app/public/pages/Sesion.tsx:35-46 | succeeds iff the password is `123456`, with the demo token and user; otherwise fails with the fixed message |
| Sesion.InvalidFormNeverAuthenticates | src/app/public/pages/Sesion.tsx:80-82 | an invalid form shows its message; nothing is stored, the busy flag is untouched and the route stays |
| Sesion.WrongPasswordShowsMessage | src/app/public/pages/Sesion.tsx:99-103 | a wrong password shows the stub's message, stores nothing, stays and clears the busy flag |
| Sesion.SignInStoresToken | src/app/public/pages/Sesion.tsx:87-98 | the token goes to `localStorage` iff "recordarme", else to `sessionStorage`; the user always goes to `localStorage`; other keys are kept; the route becomes `/perfil` |
| Sesion.SubmitOutcome | src/app/public/pages/Sesion.tsx:80-104 | the error banner ends empty iff the form is valid and the password right; the route changes only to `/perfil` and only then; the busy flag never stays raised; only the `token` and `user` keys can be added to the stores |
| Sesion.LoginForm.constructor | src/app/public/pages/Sesion.tsx:51-56 | the form starts empty, unticked, idle and with no error |
| Sesion.LoginForm.SetEmail | src/app/public/pages/Sesion.tsx:125 | typing sets the e-mail |
| Sesion.LoginForm.SetPassword | src/app/public/pages/Sesion.tsx:136 | typing sets the password |
| Sesion.LoginForm.SetRemember | src/app/public/pages/Sesion.tsx:170 | the checkbox sets "recordarme" |
| Sesion.LoginForm.Submit | src/app/public/pages/Sesion.tsx:80-104 | the handler's step-by-step updates end in `SubmitOutcome` of the fields and the previous state |
| Nav.Schedules | src/app/shared/nav/Nav.tsx:75-76 | typing arms the debounce timer iff the text is not all white space |
| Nav.SearchTarget | src/app/shared/nav/Nav.tsx:79 | the target starts with `/land/buscar/` and has no further `/` |
| Nav.OnDebounce | src/app/shared/nav/Nav.tsx:75-81 | the callback returns early iff the trimmed query is under two code units; otherwise it targets the encoded query and navigates iff the route differs |
| Nav.AfterFire | src/app/shared/nav/Nav.tsx:77-82 | a long enough query clears the box and sets the route to its search target; a short one leaves both unchanged |
| Nav.SingleCharacterQuery | src/app/shared/nav/Nav.tsx:78 | a one-character query is ignored iff that character lies inside the Basic Multilingual Plane |
| Nav.DistinctQueriesDistinctTargets | src/app/shared/nav/Nav.tsx:79-80 | different trimmed queries give different search routes |
| Nav.PlainQueryTarget | src/app/shared/nav/Nav.tsx:79 | a query of letters and digits appears in the route as typed |
| Nav.NavBar.constructor | src/app/shared/nav/Nav.tsx:70-72 | empty box, no timer, drawer and dialog closed |
| Nav.NavBar.Type | src/app/shared/nav/Nav.tsx:186 | typing in the toolbar or dialog box sets the box and arms the timer iff the trimmed text is non-empty (also line 267 and the effect at lines 74-77) |
| Nav.NavBar.TypeInDrawer | src/app/shared/nav/Nav.tsx:214-249 | typing in the drawer's box closes the drawer (its key handler) and then updates the box and the timer as any typing does |
| Nav.NavBar.RouteChanged | src/app/shared/nav/Nav.tsx:74-84 | a route change re-runs the effect and re-arms the timer for a non-blank query |
| Nav.NavBar.DebounceFires | src/app/shared/nav/Nav.tsx:77-82 | the firing timer leaves the box and route as `AfterFire` says, and no timer armed |
| Nav.NavBar.ToggleDrawer | src/app/shared/nav/Nav.tsx:94 | the drawer flag becomes the requested value |
| Nav.NavBar.OpenSearchDialog | src/app/shared/nav/Nav.tsx:193 | the search icon opens the dialog |
| Nav.NavBar.CloseSearchDialog | src/app/shared/nav/Nav.tsx:256 | closing the dialog clears its flag |

## Left out

- Timers: the 4000 ms autoplay interval, the 600 ms search debounce and the 500 ms authentication delay are discrete events (`AutoplayTick`, `DebounceFires`, an immediate `Authenticate`). Timer identities and cleanup appear only as "the latest armed timer".
- Floating-point layout: `itemWidth`, the `translateX` percentages, the slide height `Math.round(height * 0.6)` and all `sx` styling. The touch `clientX` is modelled as an integer.
- ImageCarousel with no slides renders nothing. The slideshow model requires at least one slide (`Slideshow.constructor`), because there is no index to keep then.
- The carousel's dot stepper only displays the active slide and changes no state; it is not modelled, nor is the dot styling of every strip.
- Sesion.SignInStoresToken: the user record is stored as a structured `UserEntry` value, not as `JSON.stringify` text.
- The mount-time redirect of the login page when a token already exists (Sesion.tsx lines 59-64). The routing library is not part of this model.
- Nav.AfterFire: `navigate(target)` is modelled as the route becoming `target` exactly as given. The browser's URL normalisation is not modelled, so for a query such as `..` (whose target `/land/buscar/..` the browser resolves to `/land/`) the modelled route differs from the real one.
- The `?? "Error al iniciar sesión"` fallback: the demo stub always throws an error with a message, so the fallback is unreachable.
- Storage exceptions (a full or disabled `localStorage`), the `showPassword` toggle, and the buttons that only navigate.
- Nav: the theme toggle (a context callback) and the static nav links and their routing. Any key pressed inside the drawer closes it; the model covers this for typing in the drawer's search box (`TypeInDrawer`) and for the close actions (`ToggleDrawer(false)`), not for other keys.
- Components that only render (Profile, ExpandMoreProps, Faqs, infoSection, Footer, SmallNav, Welcome, MainLayout, App, MainRoute), and React/MUI rendering itself.
- ECMAScript strings may hold lone surrogates; Dafny characters are Unicode scalar values. So `encodeURIComponent`'s URIError on a lone surrogate cannot arise, and `Utf16Length` counts scalar values as one or two units.
