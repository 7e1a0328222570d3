# Wedding invitation site: the decision and data rules

The site is a React application for one wedding. Most of it is markup and
animation. What can be stated and proved is the small set of rules inside
its components:

- the RSVP section: guest search, the form pre-filled from the guest list,
  validation, the update payload and the "request to join" payload;
- the book of guests: the attending filter, the head-count total, the
  per-guest badge and the avatar initials;
- the entourage: grouping by role category, fathers first among the
  parents, the two-column split, paired rows, and which category draws a
  combined block;
- the hero countdown: days, hours, minutes and seconds to the ceremony;
- the guestbook: sheet rows parsed into messages newest first, the
  500-character cap, the submit rule and the reset after sending;
- the message wall: avatar letters, the delayed hand-over of a new list and
  the loading/empty/list precedence;
- the masonry gallery: the Fisher-Yates shuffle on a copy, the lightbox
  index arithmetic and the loaded-image map;
- the FAQ accordion and its `[RSVP_LINK]` answers;
- the principal sponsors: dropping nameless pairs and drawing rows.

One Dafny module per component file, plus `Text` (ASCII case mapping,
whitespace, `trim`, substring search, `Option`). Component state becomes a
class whose fields are the `useState` variables, and each handler becomes a
method. A request's outcome is a method parameter: an `Option` holding the
decoded body, or a success flag. A timer callback is a separate method
that the caller invokes when the timer fires. Pure expressions
(filters, payloads, layouts, arithmetic) are functions. Lemmas beside them
state what the component promises.

The model follows the code wherever the descriptions of the site say
otherwise. One case: a head count is described as always positive, but
`parseInt("-2") || 1` is -2, and `BookOfGuests.HeadCount` keeps the
negative value.

## Model

| member | source | states |
|---|---|---|
| Text.Trim | components/sections/guest-list.tsx:72 | `trim()` is empty exactly for a blank string; otherwise it starts and ends with a non-space, and it is never longer than the input |
| Text.LowerStr | components/sections/guest-list.tsx:80 | `toLowerCase()` keeps the length and lower-cases each character |
| Text.IndexOf | components/sections/faq.tsx:156 | finds a position exactly when the pattern occurs, and that position is the first occurrence |
| GuestList.FilterGuestsSpec | components/sections/guest-list.tsx:78-81 | a guest is listed iff it is in the cached list and its lower-cased name contains the lower-cased query; the list never grows |
| GuestList.FilterGuestsAppend | components/sections/guest-list.tsx:78-81 | filtering distributes over concatenation, so matches keep the cached order |
| GuestList.SearchResultsSpec | components/sections/guest-list.tsx:72-81 | a blank query lists nobody; any other query, untrimmed, lists exactly the matching cached guests |
| GuestList.DecideSubmit | components/sections/guest-list.tsx:149-177 | no selected guest: ignored; no RSVP choice: rejected with the choice error; otherwise action "update", originalName from the selected guest, an empty e-mail sent as "Pending", headcount "1" iff RSVP is "Yes" and "0" otherwise |
| GuestList.PrefillThenSubmit | components/sections/guest-list.tsx:126-132 | submitting the pre-filled form with a choice sends the guest's own name and message, "Pending" for an empty e-mail, and the headcount fixed by the choice |
| GuestList.DecideRequest | components/sections/guest-list.tsx:218-237 | a join request with an empty name is rejected with the name error; otherwise the body is the form with Guest forced to "1" |
| GuestList.ViewOf | components/sections/guest-list.tsx:448-505 | an open modal shows the summary iff the guest has responded, and the form iff not |
| GuestList.RsvpSection.constructor | components/sections/guest-list.tsx:30-58 | the initial state: nothing loaded, selected, open or in error |
| GuestList.RsvpSection.RunSearchEffect | components/sections/guest-list.tsx:71-85 | the dropdown list becomes the search results of the current query and is open iff that list is non-empty |
| GuestList.RsvpSection.LoadGuests | components/sections/guest-list.tsx:101-117 | a loaded list replaces the cache and the dropdown is recomputed; a failed load keeps the cache and sets the load error |
| GuestList.RsvpSection.SetSearchQuery | components/sections/guest-list.tsx:71-85 | typing stores the query and reruns the search when it changed |
| GuestList.RsvpSection.ClickOutside | components/sections/guest-list.tsx:88-99 | a click outside closes the dropdown |
| GuestList.RsvpSection.SearchSelect | components/sections/guest-list.tsx:119-139 | selecting a guest opens the modal with the form pre-filled ("Pending" e-mail shown as "", Guest "1") and hasResponded iff the RSVP is not blank |
| GuestList.RsvpSection.ChooseAttendance | components/sections/guest-list.tsx:141-146 | only the RSVP field of the form changes |
| GuestList.RsvpSection.EditForm | components/sections/guest-list.tsx:141-146 | only the edited field of the form changes |
| GuestList.RsvpSection.SubmitRsvp | components/sections/guest-list.tsx:148-206 | the request sent is the one `DecideSubmit` builds; success records the thank-you and marks the guest as responded; failure sets the submit error |
| GuestList.RsvpSection.AfterRsvpSent | components/sections/guest-list.tsx:192-198 | the post-success timer closes the modal and clears the query, the selection and the dropdown |
| GuestList.RsvpSection.DismissError | components/sections/guest-list.tsx:113 | the error timer clears the error (the same timer is set at lines 153, 202, 220 and 256) |
| GuestList.RsvpSection.CloseModal | components/sections/guest-list.tsx:208-215 | closing resets the form to its defaults, clears hasResponded, the selection, the query and the error |
| GuestList.RsvpSection.OpenRequest | components/sections/guest-list.tsx:395-399 | the join form opens with the current query as its name |
| GuestList.RsvpSection.EditRequest | components/sections/guest-list.tsx:755-808 | only the edited field of the join form changes |
| GuestList.RsvpSection.SubmitRequest | components/sections/guest-list.tsx:217-260 | an empty name sets the name error and sends nothing; otherwise the body sent has Guest "1", and the outcome sets the thank-you or the request error |
| GuestList.RsvpSection.AfterRequestSent | components/sections/guest-list.tsx:247-252 | the reset timer closes the join form, empties it and clears the query and dropdown |
| GuestList.RsvpSection.CloseRequestModal | components/sections/guest-list.tsx:262-267 | closing the join form empties it and clears its error and success |
| BookOfGuests.WordsSpec | components/sections/book-of-guests.tsx:23-26 | the words are non-empty runs without whitespace, and there are none iff the name is blank |
| BookOfGuests.WordsAppend | components/sections/book-of-guests.tsx:23-26 | the words of a name joined by a space are the words of each side, in order |
| BookOfGuests.WordsOfWord | components/sections/book-of-guests.tsx:23-26 | a non-empty piece without whitespace is a single word, itself |
| BookOfGuests.Initials | components/sections/book-of-guests.tsx:21-29 | one or two characters; "?" for a blank name; otherwise the upper-cased first letters of the first two words |
| BookOfGuests.ParseDecimal | components/sections/book-of-guests.tsx:54 | the integer parser reads back any decimal numeral |
| BookOfGuests.AttendingSpec | components/sections/book-of-guests.tsx:45-50 | only records whose RSVP is exactly "Yes" are kept, each one the normalised form of such an input record, and every such record is kept |
| BookOfGuests.AttendingAppend | components/sections/book-of-guests.tsx:45-46 | the filter distributes over concatenation, so input order is kept |
| BookOfGuests.NormaliseSpec | components/sections/book-of-guests.tsx:47-50 | an empty Guest field becomes "1"; every other field is unchanged |
| BookOfGuests.HeadCount | components/sections/book-of-guests.tsx:54 | the head count of a record is never 0 |
| BookOfGuests.HeadCountOfDecimal | components/sections/book-of-guests.tsx:54 | a numeral n counts as n, and "0" counts as 1 |
| BookOfGuests.HeadCountWithoutDigits | components/sections/book-of-guests.tsx:54 | a cell without any digit is NaN for `parseInt` and counts as 1 |
| BookOfGuests.TotalOfAttending | components/sections/book-of-guests.tsx:45-56 | the total is the sum over the input of the head counts of "Yes" records; other records add nothing |
| BookOfGuests.ContributionPositive | components/sections/book-of-guests.tsx:49-54 | every attending record with an empty or numeric Guest field adds at least 1 |
| BookOfGuests.BadgeIsHeadCount | components/sections/book-of-guests.tsx:221 | the badge number follows the same rule as the total |
| BookOfGuests.BadgesSumToTotal | components/sections/book-of-guests.tsx:53-56 | the badges (line 221) of the kept records add up to the total |
| BookOfGuests.ZeroBadgeReadsOneGuests | components/sections/book-of-guests.tsx:221 | as written, a Guest field of "0" shows the badge "1 guests" |
| BookOfGuests.BadgeLabel | components/sections/book-of-guests.tsx:221 | the label is "guest" iff the number shown is 1 |
| BookOfGuests.GuestBook.FetchGuests | components/sections/book-of-guests.tsx:31-66 | a loaded list stores the attending records (as many entries as kept records) and their total; a failed request keeps both and sets the error |
| Entourage.KeysSpec | components/sections/entourage.tsx:71-83 | the categories are distinct and are exactly those with members |
| Entourage.MembersOfSpec | components/sections/entourage.tsx:74-80 | a member is in a group iff it is in the entourage with that category ("Other" when empty) |
| Entourage.MembersOfAppend | components/sections/entourage.tsx:79 | each group keeps the input order |
| Entourage.MemberInExactlyOneGroup | components/sections/entourage.tsx:74-80 | each member lands in the group of its own category and no other |
| Entourage.GroupSizesSum | components/sections/entourage.tsx:74-80 | the group sizes add up to the number of members |
| Entourage.Group | components/sections/entourage.tsx:71-83 | the loop builds the category keys in first-appearance order and, for each key, the members of that category |
| Entourage.HasInfixSpec | components/sections/entourage.tsx:273-274 | the recursive substring test used for the title agrees with `includes`: some position holds the word |
| Entourage.FathersClassified | components/sections/entourage.tsx:273-274 | the fathers part holds only titles containing "father" and the other part none |
| Entourage.FathersPartition | components/sections/entourage.tsx:271-281 | the two parts together hold exactly the members |
| Entourage.InsertFather | components/sections/entourage.tsx:272-279 | inserting a father into fathers-then-others puts it after the last father, before every other member |
| Entourage.InsertNonFather | components/sections/entourage.tsx:272-279 | inserting any other member into fathers-then-others puts it at the end |
| Entourage.SortParentsIsPartition | components/sections/entourage.tsx:271-281 | the sort gives the fathers in input order followed by the others in input order |
| Entourage.SortParentsSpec | components/sections/entourage.tsx:271-281 | the sort is a permutation and no other title comes before a father |
| Entourage.SplitSpec | components/sections/entourage.tsx:496-498 | left ++ right is the members, and the left column has one more member exactly when the count is odd |
| Entourage.RowsOf | components/sections/entourage.tsx:296-311 | max(left, right) rows, row i holding item i of each side or a blank |
| Entourage.PairRows | components/sections/entourage.tsx:499-515 | the row-building loop gives max(left, right) rows, row i holding item i of each side or a blank |
| Entourage.RowsShowAll | components/sections/entourage.tsx:296-311 | every member of either column appears in some row |
| Entourage.OrderedLayout | components/sections/entourage.tsx:470-498 | two cord sponsors side by side; otherwise two or fewer members or a single-column section centred; otherwise ceil(n/2) rows, row i pairing member i with member ceil(n/2)+i or a blank |
| Entourage.OtherLayout | components/sections/entourage.tsx:523-568 | other categories are centred up to two members and otherwise laid out in ceil(n/2) rows, row i pairing member i with member ceil(n/2)+i or a blank |
| Entourage.LayoutShowsAll | components/sections/entourage.tsx:470-498 | every member of a section appears in its layout, in the fixed order and outside it |
| Entourage.FindTitle | components/sections/entourage.tsx:242-243 | nothing is found iff no lower-cased title contains the word; otherwise the result is the first member whose title does |
| Entourage.RenderCategory | components/sections/entourage.tsx:235-520 | an empty category draws nothing; a partner category draws nothing of its own; an owner draws its combined block iff the owner has members; the couple draws the first groom and the first bride found by title; every other category draws its own section with the ordered layout |
| Entourage.BlocksShow | components/sections/entourage.tsx:235 | a member of a drawn block is shown in the ordered part of the listing |
| Entourage.OtherBlocksShow | components/sections/entourage.tsx:523-568 | every member of a category outside the fixed order is shown in its section |
| Entourage.ListingShows | components/sections/entourage.tsx:235-568 | as written, every member of a single section, of a non-empty owner together with its partner, and of every other key is shown in the listing |
| Entourage.OtherCategories | components/sections/entourage.tsx:523 | the categories after the fixed order are exactly the keys outside it |
| Entourage.NothingRendered | components/sections/entourage.tsx:236-238 | a category order whose every category is skipped draws nothing |
| Entourage.PartnerHiddenWhenOwnerEmpty | components/sections/entourage.tsx:236-238 | as written, an entourage of only "Parents of the Bride" draws no block at all |
| Entourage.RenderCategoryFixed | components/sections/entourage.tsx:284 | an owner draws its combined block iff the owner or its partner has members |
| Entourage.CombinedShowsBoth | components/sections/entourage.tsx:296-311 | the combined block shows every member of both categories |
| Entourage.PairedCategoriesAlwaysShown | components/sections/entourage.tsx:265-449 | with the corrected rule, every member of a paired category is shown |
| Hero.TimeLeftSpec | components/sections/hero.tsx:33-55 | hours, minutes and seconds are in range; before the target the fields make up exactly the whole seconds left; from the target on all are zero |
| Hero.CountdownNonIncreasing | components/sections/hero.tsx:36-38 | the seconds left never increase as the clock advances |
| Hero.StaysZero | components/sections/hero.tsx:47-54 | once the target is reached the countdown stays all zero |
| Hero.CountdownZero | components/sections/hero.tsx:40-54 | the countdown reads zero exactly when less than a second is left |
| Hero.Countdown.Tick | components/sections/hero.tsx:32-59 | each tick stores the countdown of the current clock reading, with its fields in range |
| Messages.FindIndex | components/sections/messages.tsx:262-264 | -1 iff no lower-cased header contains the key; otherwise the first header that does |
| Messages.MapRowsSpec | components/sections/messages.tsx:265-270 | one message per row, built from the cells at the located columns |
| Messages.ReverseSpec | components/sections/messages.tsx:271 | the reversal keeps the length and mirrors the positions |
| Messages.ParseSheetSpec | components/sections/messages.tsx:260-271 | no rows at all fails; otherwise one message per row after the header, newest (last) first, each from the cells at the header-located columns |
| Messages.ReverseReverse | components/sections/messages.tsx:271 | reversing twice restores sheet order |
| Messages.Board.FetchMessages | components/sections/messages.tsx:253-279 | a parsed sheet replaces the list; a failure keeps it; loading ends either way |
| Messages.SubmitDisabled | components/sections/messages.tsx:220 | disabled iff sending, or the name or the message is blank |
| Messages.MessageForm.EditName | components/sections/messages.tsx:149-153 | the name input takes the typed value |
| Messages.MessageForm.EditMessage | components/sections/messages.tsx:195-199 | a value of at most 500 characters is taken, a longer one leaves the message unchanged, so it never exceeds 500 |
| Messages.MessageForm.CanSubmit | components/sections/messages.tsx:220 | sending is possible exactly when the button is not disabled |
| Messages.MessageForm.Submit | components/sections/messages.tsx:33-81 | the typed values are sent; a completed send raises the submitted flag and clears both inputs; a failed one keeps them; sending ends either way |
| Messages.MessageForm.SubmittedAnimationDone | components/sections/messages.tsx:67 | the animation timer lowers the submitted flag |
| MessageWall.SplitJoin | components/sections/message-wall-display.tsx:111 | splitting on single spaces and joining back gives the name, and no piece holds a space |
| MessageWall.AvatarTextLength | components/sections/message-wall-display.tsx:110-114 | one letter per non-empty piece, so never more letters than pieces; an empty name gives "" |
| MessageWall.AvatarTextAppend | components/sections/message-wall-display.tsx:110-114 | the letters come from the pieces in order |
| MessageWall.AvatarTextWord | components/sections/message-wall-display.tsx:110-114 | one word gives its upper-cased first letter |
| MessageWall.ViewOf | components/sections/message-wall-display.tsx:37-88 | loading wins over the empty state, which wins over the list; the cards are the visible list |
| MessageWall.WallDisplay.MessagesChanged | components/sections/message-wall-display.tsx:23-35 | an empty list clears the visible list; a non-empty one starts the animation and schedules itself |
| MessageWall.WallDisplay.TimerFired | components/sections/message-wall-display.tsx:26-29 | the scheduled list becomes the visible list and the animation ends |
| MessageWall.ChangeAndSettle | components/sections/message-wall-display.tsx:23-35 | a non-empty list, once its timer fires, is exactly the visible list |
| Gallery.ShuffleStepAt | components/masonry-gallery.tsx:20-22 | step k of the loop swaps position length-k with its random pick |
| Gallery.ShuffleStepsPermute | components/masonry-gallery.tsx:19-23 | after any number of swap steps, with picks in range, the list holds the same images with the same multiplicities |
| Gallery.ShuffledIsPermutation | components/masonry-gallery.tsx:18-25 | for any random picks in range, the complete shuffle is a permutation of the images |
| Gallery.ShuffleInPlace | components/masonry-gallery.tsx:19-23 | the in-place loop leaves the array holding the swap sequence applied to its old contents, a permutation of them |
| Gallery.Shuffle | components/masonry-gallery.tsx:18-25 | a fresh copy is shuffled exactly as the swap sequence says, holds the same images, and the input is untouched |
| Gallery.Next | components/masonry-gallery.tsx:35 | the next index stays in range |
| Gallery.Prev | components/masonry-gallery.tsx:36 | the previous index stays in range |
| Gallery.NextPrevSpec | components/masonry-gallery.tsx:35-36 | next steps forward and wraps to the first image; previous steps back and wraps to the last |
| Gallery.NextPrevInverse | components/masonry-gallery.tsx:35-36 | next then previous, and previous then next, return the starting index |
| Gallery.MasonryGallery.LightboxImage | components/masonry-gallery.tsx:96 | the lightbox shows an image iff an index is open, and it is one of the images |
| Gallery.MasonryGallery.ShuffleAfterMount | components/masonry-gallery.tsx:18-29 | the shuffled copy, a permutation of the images, replaces the display order |
| Gallery.MasonryGallery.Open | components/masonry-gallery.tsx:69 | clicking a tile opens the lightbox at it |
| Gallery.MasonryGallery.Close | components/masonry-gallery.tsx:99 | the backdrop and the close button close the lightbox |
| Gallery.MasonryGallery.KeyDown | components/masonry-gallery.tsx:31-40 | keys are ignored with nothing open; Escape closes; the arrows step with wrap-around; other keys change nothing |
| Gallery.MasonryGallery.NextButton | components/masonry-gallery.tsx:115 | the button steps to the next index |
| Gallery.MasonryGallery.PrevButton | components/masonry-gallery.tsx:104 | the button steps to the previous index |
| Gallery.MasonryGallery.MarkLoaded | components/masonry-gallery.tsx:82-83 | the image becomes loaded, and no entry is removed or set to false |
| Gallery.MasonryGallery.RefAttached | components/masonry-gallery.tsx:43-48 | an already complete image becomes loaded, and no entry is removed or set to false |
| Faq.Toggle | components/sections/faq.tsx:68-70 | clicking the open item closes it; clicking any other opens that one |
| Faq.ToggleSingleOpen | components/sections/faq.tsx:68-70 | after a click at most the clicked item is open, and it is open iff it was not |
| Faq.ToggleTwice | components/sections/faq.tsx:68-70 | two clicks on the same item restore a closed or that-item-open state |
| Faq.RenderAnswer | components/sections/faq.tsx:154-167 | an answer is shown verbatim iff it holds no opening marker |
| Faq.RenderMarkedAnswer | components/sections/faq.tsx:154-163 | with each marker once and a one-line link text, the prefix, link and suffix are the answer with the markers taken out |
| Faq.RenderPlainAnswer | components/sections/faq.tsx:165-167 | an answer without the opening marker is shown as written |
| PrincipalSponsors.SponsorPairsSpec | components/sections/principal-sponsors.tsx:72-75 | a pair is kept iff it is in the input and has a name; the list never grows |
| PrincipalSponsors.SponsorPairsSubsequence | components/sections/principal-sponsors.tsx:72-75 | the kept pairs are an order-preserving subsequence of the input |
| PrincipalSponsors.SponsorPairsAppend | components/sections/principal-sponsors.tsx:72-75 | filtering distributes over concatenation |
| PrincipalSponsors.SponsorPairsIdempotent | components/sections/principal-sponsors.tsx:72-75 | filtering twice is filtering once |
| PrincipalSponsors.RowOf | components/sections/principal-sponsors.tsx:150-165 | the male name on the left and the female on the right, each blank iff empty |
| PrincipalSponsors.RowsSpec | components/sections/principal-sponsors.tsx:150-165 | one row per kept pair, in order, and no row is blank on both sides |
| PrincipalSponsors.ViewOf | components/sections/principal-sponsors.tsx:120-142 | loading wins over the error, the error over the empty state, the empty state over the rows |
| PrincipalSponsors.ErrorText | components/sections/principal-sponsors.tsx:58-60 | the error text is never empty and is the thrown message when it has one |
| PrincipalSponsors.SponsorList.FetchAsWritten | components/sections/principal-sponsors.tsx:51-64 | a success replaces the list and leaves any earlier error; a failure keeps the list and sets the error |
| PrincipalSponsors.RetryAfterFailureAsWritten | components/sections/principal-sponsors.tsx:51-64 | as written, a failed load followed by a successful "Try again" still shows the error |
| PrincipalSponsors.SponsorList.Fetch | components/sections/principal-sponsors.tsx:51-64 | with the error cleared at the start, a success replaces the list and leaves no error view |
| PrincipalSponsors.RetryAfterFailure | components/sections/principal-sponsors.tsx:51-64 | with the corrected load, the same retry shows the sponsor rows |

## Left out

- Requests to `/api/guests`, `/api/guest-requests`, `/api/entourage`, `/api/principal-sponsor`, the message sheet and the message form are not made: their outcomes are parameters of the methods that handle them.
- Timers (`setTimeout` of 1000/2000/3000/5000 ms, the one-second countdown interval) are methods the caller invokes when the timer fires; their durations are not modelled.
- The `rsvpUpdated` and `entourageUpdated` window events, the outside-click listener registration and the intersection observers are not modelled; the outside click is the method `ClickOutside`.
- Animation and presentation state (`isVisible`, `showInvitation`, `showCountdown`, `isFocused`, `focusedField`) is not modelled, nor are toasts; the RSVP modal's `isLoading` flag is modelled, but not the spinner it draws.
- `toLowerCase`, `toUpperCase`, `trim` and `\s` are modelled for ASCII only; Unicode case mapping and Unicode whitespace are library behaviour.
- EditMessage: the 500 limit counts characters (Unicode scalar values), while JavaScript's `.length` counts UTF-16 code units, so a message of characters outside the Basic Multilingual Plane (emoji) that the page refuses can be accepted by the model; strings are modelled as sequences of characters throughout.
- FirstLetters: `p[0]` in the initials is modelled as the first character; JavaScript takes the first UTF-16 code unit, which for a word starting outside the Basic Multilingual Plane is half a surrogate pair rather than the whole character.
- FirstChars: the same holds for `n[0]` in the message-wall avatar letters.
- `parseInt` is modelled in base ten only (leading white space, an optional sign, a run of decimal digits); its radix detection for "0x" prefixes is not modelled.
- BookOfGuests.GuestBook.FetchGuests: a response whose JSON cannot be decoded fails with the decoder's own message in the source; the model sets the request error for every failure.
- The countdown divides an integer number of milliseconds, so JavaScript's floating-point `Math.floor(x / k % m)` is integer division and remainder; floating-point rounding is not modelled.
- MessageWall.AvatarText takes a string; a message whose name cell is missing makes the source's `split` throw, which is not modelled.
- The fathers-first sort is modelled as an insertion sort; any stable sort with the same comparison gives the same list.
- The grouping keeps categories in first-appearance order; JavaScript moves integer-like object keys to the front, which category names never are.
- The message form's POST is sent in `no-cors` mode, so only "settled" or "threw" is observable; that is the `sendOk` parameter.
- `components/background-music.tsx` (audio playback and `sessionStorage` signalling) is not part of this model.
- The rendering of the entourage's couple block beyond picking the groom and the bride by title, and all CSS-class selection, are not modelled.
- Gallery.Shuffle: the random picks `Math.floor(Math.random() * (i + 1))` are a parameter constrained to `0 <= pick <= i`.

## Findings

| source | as written | input that shows it | evidently intended | confidence | as-written member | corrected member |
|---|---|---|---|---|---|---|
| components/sections/book-of-guests.tsx:221 | the badge number uses `parseInt(..) \|\| 1` but the label compares `parseInt(..) === 1` without the fallback | a "Yes" record with Guest "0" shows "1 guests" | the label agrees with the number shown: "1 guest" | not executed | BookOfGuests.ZeroBadgeReadsOneGuests | BookOfGuests.BadgeLabel |
| components/sections/entourage.tsx:236-238 | a combined block is drawn only while rendering its owner category, which is skipped when empty | an entourage whose only members are "Parents of the Bride" shows nothing | the partner's members are shown even when the owner category is empty | not executed | Entourage.PartnerHiddenWhenOwnerEmpty | Entourage.PairedCategoriesAlwaysShown |
| components/sections/principal-sponsors.tsx:51-64, 127 | `fetchSponsors` never clears `error`, and the error view wins over the list | a failed load, then "Try again" succeeding | a successful retry shows the sponsors | not executed | PrincipalSponsors.RetryAfterFailureAsWritten | PrincipalSponsors.RetryAfterFailure |
