# MovieCollaboration front end: a Dafny model of its client-side logic

MovieCollaboration lets friends form groups, share a watchlist of movies and
series, and record who has finished what. This project models the logic that
the React front end runs in the browser:

- **Group detail page.** It keeps a map of local completion flags keyed
  `"<type>-<id>"`. When the map has no flag for an item, the page falls back to
  the viewer's progress record in the watchlist. A toggle writes the negation of
  the status it resolved.
- **Movie card.** It computes the completion percentage (`Math.round` of
  completed / members × 100), the average of the truthy poll ratings, and the
  reaction tally. Its comments panel is blurred behind a spoiler notice until the
  viewer has completed the movie.
- **Series card.** It shows one row per episode record: the `S<n>E<m>` label,
  the reactions, the rating badge, and the spoiler-gated comments.
- **Movie search page.** It caches results under the lower-cased query. It
  keeps a list of selected groups, toggled one id at a time, and posts the
  "add to watchlists" request only when an item and a group are selected.
- **Create-group, sign-up and log-in forms.** Each has its validation rules,
  clears a field's error as that field is edited, and on submit either sends
  its request or stores its errors.
- **Group card.** It renders the truncated description, the member and admin
  counts with their plural suffixes, an avatar preview of the first four
  members, the "+N" badge and the caption.

There is one module per source file. `GroupDetail`, `MovieCard`, `SeriesCard`, `MovieSearch`,
`CreateGroup`, `Signup`, `Login` and `GroupCard` model those files. Shared modules:
- `Interfaces`: the records of `src/interfaces/interfaces.ts`.
- `Text`: JavaScript's `trim`, `\s`, ASCII case mapping and decimal rendering.
- `Email`: the e-mail pattern that both forms use.
- `SpoilerGate`: the blur/notice rule that both cards share.
- `Seqs` and `Wrappers`: general helpers.

State the page updates in place is a class whose methods are proved against
pure functions:
- the completion overlay: `GroupDetail.CompletionStatusPage`;
- the search page's cache, results, selection and modal:
  `MovieSearch.SearchPage`;
- each form's data, errors and loading flag.

A network call becomes a parameter that gives its outcome. The model then
states what is sent and what state follows for each outcome.

JavaScript behaviours modelled explicitly:
- A rating `0` is falsy: it is dropped from the average and shows no badge.
- A missing id renders as the text `undefined` inside a template key.
- `a || b` falls back on an empty message.
- A cached empty array still counts as a hit, because `[]` is truthy.
- `Math.round` rounds halves up. The model computes the percentage exactly on
  integers rather than in floating point (see "## Left out"). Division by zero
  gives `NaN` or `Infinity`.
- `trim` and the regex class `\s` remove exactly the ECMAScript white-space and
  line-terminator characters.

## Model

| member | source | states |
|---|---|---|
| GroupDetail.StateKeyInjective | src/pages/groups/GroupDetail.tsx:103 | Two items with real ids get the same `"<type>-<id>"` key only if they have the same type and the same id. |
| GroupDetail.MissingIdSharesKey | src/pages/groups/GroupDetail.tsx:103 | A missing id gets the same key as the id `"undefined"`. |
| GroupDetail.OverlayWins | src/pages/groups/GroupDetail.tsx:103-106 | When the overlay has an item's key, the resolved status is the stored flag, whatever the watchlist or user. |
| GroupDetail.FindIsFirst | src/pages/groups/GroupDetail.tsx:110-111 | `find` returns nothing exactly when no element matches, and otherwise returns the first match. |
| GroupDetail.MovieFallback | src/pages/groups/GroupDetail.tsx:109-112 | With no overlay entry, a movie's status is the `completed` of the viewer's first record on the first movie with that `id`. |
| GroupDetail.MovieFallbackMissing | src/pages/groups/GroupDetail.tsx:109-112 | With no overlay entry, a missing movie or a missing viewer record gives `false`. |
| GroupDetail.SeriesFallback | src/pages/groups/GroupDetail.tsx:113-117 | With no overlay entry, a series' status is the `completed` of the viewer's first episode record on the first series with that `id`. |
| GroupDetail.SeriesFallbackMissing | src/pages/groups/GroupDetail.tsx:113-117 | With no overlay entry, a missing series or a missing viewer episode record gives `false`. |
| GroupDetail.ToggleNegates | src/pages/groups/GroupDetail.tsx:91-96 | After a toggle the item resolves to the negation of its status before the toggle. |
| GroupDetail.ToggleTwiceRestores | src/pages/groups/GroupDetail.tsx:91-106 | Two toggles restore the item's resolved status. When its key was already stored, they restore the whole overlay. |
| GroupDetail.ToggleOnlyItsKey | src/pages/groups/GroupDetail.tsx:93-96 | A toggle adds only the item's key, and every item with another key resolves as before. |
| GroupDetail.ToggleSeparatesItems | src/pages/groups/GroupDetail.tsx:95 | Toggling one item leaves an item with a different id or type unchanged. |
| GroupDetail.MovieClickAsWrittenMisses | src/pages/groups/components/MovieCard.tsx:62 | As written, the movie button passes `_id`. When that key differs from the `id` key, a click leaves the card's flag as it was. |
| GroupDetail.MovieClickAsWrittenSample | src/pages/groups/GroupDetail.tsx:22-37 | On the page's own data (movie `id` "1", no `_id`), a click stores `movie-undefined` and the completed card stays completed. |
| GroupDetail.MovieClickFlips | src/pages/groups/GroupDetail.tsx:141-149 | When the card passes `id`, a click flips its own flag and no other movie's. |
| GroupDetail.SeriesClickFlips | src/pages/groups/components/SeriesCard.tsx:30 | The series button passes `id`, so a click flips the card's flag. |
| GroupDetail.CompletionStatusPage.constructor | src/pages/groups/GroupDetail.tsx:86-89 | The page starts with an empty overlay, for the given watchlist and viewer. |
| GroupDetail.CompletionStatusPage.ToggleCompletionStatus | src/pages/groups/GroupDetail.tsx:91-100 | The overlay becomes the toggled overlay, and the item's resolved status is negated. |
| GroupDetail.CompletionStatusPage.OnMovieToggle | src/pages/groups/components/MovieCard.tsx:62 | As written, the movie card hands the page's callback (GroupDetail.tsx:149) the movie's `_id`, which is toggled as a movie. When that key differs from the `id` key, the card's flag is unchanged. |
| GroupDetail.CompletionStatusPage.OnSeriesToggle | src/pages/groups/GroupDetail.tsx:166 | A series card's callback toggles the series' `id` as a series. |
| MovieCard.CompletedCountBounds | src/pages/groups/components/MovieCard.tsx:24 | The completed count is at most the number of records. It equals that number exactly when all are completed, and it is 0 exactly when none are. |
| MovieCard.RoundedPercent | src/pages/groups/components/MovieCard.tsx:25 | For m > 0 the result is the integer nearest to 100·c/m, with halves rounded up. For m = 0 it is `NaN` (c = 0) or `Infinity`. |
| MovieCard.PercentInRange | src/pages/groups/components/MovieCard.tsx:23-26 | When c ≤ m and m > 0, the percentage is a number in [0, 100]. |
| MovieCard.PercentMonotonic | src/pages/groups/components/MovieCard.tsx:23-26 | More completions never lower the percentage. |
| MovieCard.PercentFullIffAllCompleted | src/pages/groups/components/MovieCard.tsx:23-26 | With fewer than 200 members, the bar reads 100 exactly when everyone has completed. |
| MovieCard.PercentZeroIffNoneCompleted | src/pages/groups/components/MovieCard.tsx:23-26 | With at most 200 members, the bar reads 0 exactly when nobody has completed. |
| MovieCard.NearlyFullRoundsToFull | src/pages/groups/components/MovieCard.tsx:25 | 200 completions out of 201 members already read 100. |
| MovieCard.CompletionWithinMembers | src/pages/groups/components/MovieCard.tsx:23-26 | When each record belongs to a distinct member, the count is at most the member count and the percentage lies in [0, 100]. |
| MovieCard.Ratings | src/pages/groups/components/MovieCard.tsx:29 | Filtering keeps at most one rating per record. |
| MovieCard.RatingsAreTruthy | src/pages/groups/components/MovieCard.tsx:29 | Every kept rating is some record's truthy `pollRating`, every truthy rating is kept, and the list is empty exactly when none is truthy. |
| MovieCard.RatingsConcat | src/pages/groups/components/MovieCard.tsx:29 | The ratings of two runs of records are the first run's ratings followed by the second's. |
| MovieCard.RatingsOfOne | src/pages/groups/components/MovieCard.tsx:29 | One record contributes its rating exactly when it is truthy. |
| MovieCard.RatingsRecordByRecord | src/pages/groups/components/MovieCard.tsx:29-31 | The ratings follow the records in order and with multiplicity. A record with a truthy rating adds one to the mean's count and its value to the sum; any other record adds nothing. |
| MovieCard.NoRatingsIffNoneTruthy | src/pages/groups/components/MovieCard.tsx:29-30 | The average is the "no ratings" 0 exactly when no rating is truthy. |
| MovieCard.AverageWithinBounds | src/pages/groups/components/MovieCard.tsx:28-32 | When every truthy rating lies in [lo, hi], so does the mean. |
| MovieCard.AverageSample | src/pages/groups/components/MovieCard.tsx:28-32 | Ratings 5, none and 3 average 8/2, and the missing rating is not counted. |
| MovieCard.TallyOfAdd | src/pages/groups/components/MovieCard.tsx:38 | One `(reactions[r] \|\| 0) + 1` step gives the tally of the bag with r added. |
| MovieCard.TallyStep | src/pages/groups/components/MovieCard.tsx:37-39 | The inner loop's step keeps the tally equal to the reactions counted so far. |
| MovieCard.GetReactionCounts | src/pages/groups/components/MovieCard.tsx:34-42 | The nested loops return the tally of all reactions of all records. |
| MovieCard.AllReactionsConcat | src/pages/groups/components/MovieCard.tsx:36-40 | The reactions of two runs of records are those of the first run followed by those of the second. |
| MovieCard.AllReactionsPermutation | src/pages/groups/components/MovieCard.tsx:36-40 | Reordering the records permutes the collected reactions. |
| MovieCard.TallyOrderIndependent | src/pages/groups/components/MovieCard.tsx:34-42 | The tally does not depend on the order of the records. |
| MovieCard.TallyCounts | src/pages/groups/components/MovieCard.tsx:35-41 | A symbol has an entry exactly when some record reacted with it, and the entry is its number of occurrences. |
| MovieCard.TotalIsAllReactions | src/pages/groups/components/MovieCard.tsx:36-37 | The sum of the records' reaction counts is the number of collected reactions. |
| MovieCard.TallySumsToTotal | src/pages/groups/components/MovieCard.tsx:34-42 | The five counts add up to the total number of reactions. |
| MovieCard.TallySample | src/pages/groups/components/MovieCard.tsx:34-42 | A concrete tally of three records. |
| MovieCard.CommentsSectionGate | src/pages/groups/components/MovieCard.tsx:123-155 | When open, the comments are blurred and carry the spoiler notice exactly when the viewer has not completed the movie. Each comment line shows its author's username, found by `_id`, and its text. |
| SeriesCard.EpisodeLabelInjective | src/pages/groups/components/SeriesCard.tsx:55 | Equal `S<n>E<m>` labels mean equal season and episode numbers. |
| SeriesCard.AuthorNameFirstMatch | src/pages/groups/components/SeriesCard.tsx:75-78 | The author shown is the `name` of the first member whose `id` matches, or nothing when none matches. |
| SeriesCard.EpisodeRowsShow | src/pages/groups/components/SeriesCard.tsx:51-90 | There is one row per episode record, in order. Each row has its label, its reactions, a badge for a truthy rating, and gated comments when there are any. |
| SeriesCard.RowLabelsDistinct | src/pages/groups/components/SeriesCard.tsx:54-56 | Two rows with the same label come from records with the same season and episode. |
| SeriesCard.RowIgnoresEpisodeCompleted | src/pages/groups/components/SeriesCard.tsx:73 | The gate uses the page's series flag, not the episode record's `completed`. |
| SeriesCard.ZeroRatingHasNoBadge | src/pages/groups/components/SeriesCard.tsx:63 | A rating of 0, or a missing one, shows no badge. |
| SpoilerGate.Gate | src/pages/groups/components/SeriesCard.tsx:73-89 | The panel is blurred and shows the notice exactly when the viewer has not completed. It lists the same lines either way. |
| SpoilerGate.GateIsAdvisory | src/pages/groups/components/MovieCard.tsx:127-155 | The gate only blurs: the same lines are rendered whether or not the viewer has completed. |
| MovieSearch.ToggleFlipsMembership | src/pages/MovieSearchPage.tsx:72-78 | After a toggle the id is selected exactly when it was not selected before. |
| MovieSearch.ToggleKeepsOthers | src/pages/MovieSearchPage.tsx:73-77 | The other ids keep their membership and their relative order. |
| MovieSearch.ToggleKeepsNoDup | src/pages/MovieSearchPage.tsx:73-77 | A duplicate-free selection stays duplicate-free. |
| MovieSearch.ToggleTwiceUnselected | src/pages/MovieSearchPage.tsx:73-77 | Toggling an unselected id twice gives back the same list. |
| MovieSearch.ToggleTwiceSameSet | src/pages/MovieSearchPage.tsx:73-77 | Toggling any id twice gives back the same set of ids. |
| MovieSearch.ToggleTwiceMovesToEnd | src/pages/MovieSearchPage.tsx:73-77 | Toggling a selected id twice moves it to the end, so ["a","b"] becomes ["b","a"]. |
| MovieSearch.CacheKeyIgnoresCase | src/pages/MovieSearchPage.tsx:38 | Two queries share a cache key exactly when their lower-cased names and their types are equal. |
| MovieSearch.EmptyNameClears | src/pages/MovieSearchPage.tsx:36 | An empty name clears the results and sends nothing. |
| MovieSearch.CacheHitServes | src/pages/MovieSearchPage.tsx:40-43 | A cached key serves its results and sends nothing. |
| MovieSearch.CacheMissRequests | src/pages/MovieSearchPage.tsx:45-47 | A miss sets loading and sends the search URL built from the name and type as typed. |
| MovieSearch.RequestIffMiss | src/pages/MovieSearchPage.tsx:36-47 | A request is sent exactly for a non-empty name missing from the cache. |
| MovieSearch.SettleKeepsCache | src/pages/MovieSearchPage.tsx:48-55 | Settling ends loading and never drops or changes another key's entry. A failure changes nothing else. |
| MovieSearch.SecondSearchHits | src/pages/MovieSearchPage.tsx:36-55 | After a miss settles with results, the same query in any letter case is a hit that serves those results. |
| MovieSearch.SaveRequestIffSelection | src/pages/MovieSearchPage.tsx:80-97 | The add request is sent exactly when an item and a group are selected, and it carries them. A success toasts and closes the modal; a failure or no selection toasts an error and leaves it open. |
| MovieSearch.SearchPage.constructor | src/pages/MovieSearchPage.tsx:21-32 | The page starts with an empty cache, no results, no selection and the modal closed. |
| MovieSearch.SearchPage.RunSearchEffect | src/pages/MovieSearchPage.tsx:35-56 | The search state and the request follow the effect function, and the selection is untouched. |
| MovieSearch.SearchPage.SettleRequest | src/pages/MovieSearchPage.tsx:48-55 | The search state follows the settle function for the request's key. |
| MovieSearch.SearchPage.OpenModal | src/pages/MovieSearchPage.tsx:66-70 | Opening selects the item, clears the group selection and opens the modal. |
| MovieSearch.SearchPage.ToggleGroup | src/pages/MovieSearchPage.tsx:72-78 | The selection becomes the toggled list and stays duplicate-free. |
| MovieSearch.SearchPage.SaveToWatchlists | src/pages/MovieSearchPage.tsx:80-97 | The request, the toast and whether the modal closes follow the save function. |
| CreateGroup.NameRequiredIffBlank | src/pages/groups/CreateGroup.tsx:32-33 | A name gets "required" exactly when its trim is empty, that is, when it is all whitespace. |
| CreateGroup.NameLengthRules | src/pages/groups/CreateGroup.tsx:34-38 | For a name that is not blank, an untrimmed length below 3 gives "too short", above 50 gives "too long", and otherwise no error. |
| CreateGroup.ValidIff | src/pages/groups/CreateGroup.tsx:29-46 | As written, the form is valid exactly when the name is not blank, the name has 3 to 50 characters, and the description has at most 250. |
| CreateGroup.IntendedValidIff | src/pages/groups/CreateGroup.tsx:40-41 | Under the intended 200 limit, the form is valid exactly when the name passes and the description has at most 200 characters. Every such form is also valid as written. |
| CreateGroup.FieldsIndependent | src/pages/groups/CreateGroup.tsx:32-42 | The name's error does not depend on the description, and the description's error does not depend on the name. |
| CreateGroup.PayloadTrimmed | src/pages/groups/CreateGroup.tsx:79-80 | The posted fields are trimmed, are no longer than the input, and trimming them again changes nothing. |
| CreateGroup.ValidPayloadNameNonEmpty | src/pages/groups/CreateGroup.tsx:69-80 | A valid form posts a non-empty name. |
| CreateGroup.PaddedShortNamePasses | src/pages/groups/CreateGroup.tsx:32-38 | The length rule reads the untrimmed name, so "a  " is valid and posts "a". |
| CreateGroup.EnabledMeansNameNotBlank | src/pages/groups/CreateGroup.tsx:242 | The button is enabled exactly when nothing is loading and the trimmed name is non-empty. |
| CreateGroup.InputChangesOnlyItsField | src/pages/groups/CreateGroup.tsx:48-64 | Editing a field changes only that field and clears only its error. |
| CreateGroup.SubmitGuard | src/pages/groups/CreateGroup.tsx:66-96 | The trimmed payload is posted exactly for a valid form. Only a success navigates. A failure shows a non-empty general error. |
| CreateGroup.DescriptionLimitAsWrittenSample | src/pages/groups/CreateGroup.tsx:40-41 | As written, a form with a passing name and a description of 201 to 250 characters is valid and is posted, although the intended rule rejects its description. |
| CreateGroup.DescriptionLimitMatchesMessage | src/pages/groups/CreateGroup.tsx:40-41 | The intended rule rejects exactly the descriptions over 200 characters, with the message's text. Up to 200 it agrees with the rule as written. |
| CreateGroup.CreateGroupForm.constructor | src/pages/groups/CreateGroup.tsx:21-27 | The form starts empty, with no errors and not loading. |
| CreateGroup.CreateGroupForm.ValidateForm | src/pages/groups/CreateGroup.tsx:29-46 | The stored errors are the validation errors of the form, and the result says whether there are none. |
| CreateGroup.CreateGroupForm.HandleInputChange | src/pages/groups/CreateGroup.tsx:48-64 | The data and the errors follow the input function. |
| CreateGroup.CreateGroupForm.HandleSubmit | src/pages/groups/CreateGroup.tsx:66-96 | The request, the errors and the navigation follow the submit function, and loading ends false. |
| Signup.UsernameRule | src/pages/Signup.tsx:44-46 | A username is an error exactly when its trim is empty. |
| Signup.ConfirmRules | src/pages/Signup.tsx:61-65 | An empty confirmation gets "please confirm". A different one gets "do not match". |
| Signup.ValidIff | src/pages/Signup.tsx:40-69 | The form is valid exactly when the username is not blank, the email matches, the password is non-empty and the confirmation equals it. |
| Signup.InputChangesOnlyItsField | src/pages/Signup.tsx:71-85 | Editing a field changes only that field and clears only its error. |
| Signup.SubmitGuard | src/pages/Signup.tsx:87-123 | The fields are posted exactly for a valid form. Every response navigates to the login page. A thrown error shows a non-empty message. |
| Signup.SignupForm.constructor | src/pages/Signup.tsx:22-33 | The form starts empty, with no errors and not loading. |
| Signup.SignupForm.ValidateForm | src/pages/Signup.tsx:40-69 | The stored errors are the validation errors, and the result says whether there are none. |
| Signup.SignupForm.HandleInputChange | src/pages/Signup.tsx:71-85 | The data and the errors follow the input function. |
| Signup.SignupForm.HandleSubmit | src/pages/Signup.tsx:87-123 | The request, the errors and the navigation follow the submit function. |
| Login.ValidIff | src/pages/Login.tsx:42-59 | The form is valid exactly when the email matches and the password is non-empty. |
| Login.InputChangesOnlyItsField | src/pages/Login.tsx:61-75 | Editing a field changes only that field and clears only its error. |
| Login.SubmitGuard | src/pages/Login.tsx:77-99 | The log-in is called exactly for a valid form, with the fields as typed. Only a success navigates home. A failure shows a non-empty message. |
| Login.LoginForm.constructor | src/pages/Login.tsx:27-34 | The form starts empty, with no errors and not loading. |
| Login.LoginForm.ValidateForm | src/pages/Login.tsx:42-59 | The stored errors are the validation errors, and the result says whether there are none. |
| Login.LoginForm.HandleInputChange | src/pages/Login.tsx:61-75 | The data and the errors follow the input function. |
| Login.LoginForm.HandleSubmit | src/pages/Login.tsx:77-99 | The call, the errors and the navigation follow the submit function. |
| Email.ValidateEmailIsShape | src/pages/Signup.tsx:35-38 | The pattern matches exactly a whitespace-free text with a single `@`. There is text before the `@`, and after it a `.` with text on both sides. |
| Email.EmailRules | src/pages/Signup.tsx:49-53 | The rule both forms apply (also Login.tsx:46-50). A blank email gets "required". Any other email that fails the pattern gets the format error. No error means the pattern matches. |
| Email.ValidEmailIsTrimmed | src/pages/Login.tsx:37-40 | A matching email is non-empty and already trimmed. |
| Email.SampleAddressPasses | src/pages/Login.tsx:37-40 | "ab@c.de" matches. |
| Email.SecondAtFails | src/pages/Signup.tsx:35-38 | "a@b.c@d" does not match. |
| Text.Trim | src/pages/groups/CreateGroup.tsx:79-80 | `trim` gives a text no longer than its input, with no whitespace at either end. |
| Text.TrimRemovesOnlyEnds | src/pages/groups/CreateGroup.tsx:79-80 | `trim` keeps a contiguous part of the text and cuts off only whitespace before and after it. |
| Text.TrimEmptyIffBlank | src/pages/groups/CreateGroup.tsx:32 | A trim is empty exactly when the text is all whitespace. |
| Text.TrimIdempotent | src/pages/groups/CreateGroup.tsx:79-80 | Trimming twice is trimming once. |
| Text.ToLowerIdempotent | src/pages/MovieSearchPage.tsx:38 | Lower-casing twice is lower-casing once. |
| Text.NatToStringRoundTrip | src/pages/groups/GroupCard.tsx:41 | A rendered count reads back as the same number. |
| Text.NatToStringInjective | src/pages/groups/GroupCard.tsx:70 | Different counts render differently. |
| GroupCard.TruncateShort | src/pages/groups/GroupCard.tsx:23 | A text within the limit is shown as it is. |
| GroupCard.TruncateLong | src/pages/groups/GroupCard.tsx:24 | A longer text shows its first `maxLength` characters, trimmed, and then "...". |
| GroupCard.TruncatedIsInfix | src/pages/groups/GroupCard.tsx:22-25 | What precedes the dots is a contiguous part of the text's first `maxLength` characters. |
| GroupCard.DescriptionLineRules | src/pages/groups/GroupCard.tsx:48-51 | A missing or empty description reads "No description available". Up to 100 characters it is shown whole; a longer one is cut at 100, trimmed, and followed by "...". |
| GroupCard.CountLabelsPlural | src/pages/groups/GroupCard.tsx:41 | The member label (line 41) and the admin label (line 87) start with the count and end in "s" exactly when the count is not 1. |
| GroupCard.AvatarInitial | src/pages/groups/GroupCard.tsx:65 | The initial is the upper-cased first character, or empty for an empty name. |
| GroupCard.PreviewIsFirstFour | src/pages/groups/GroupCard.tsx:59-67 | The preview shows the initials of the first min(4, n) members, in order. |
| GroupCard.OverflowAccountsForAll | src/pages/groups/GroupCard.tsx:68-72 | The badge appears exactly past four members, and the preview plus the badge's number account for every member. |
| GroupCard.CaptionRules | src/pages/groups/GroupCard.tsx:74-78 | The caption appears exactly past one member. It reads "and N more" past four members and "members" otherwise. |
| GroupCard.CaptionMatchesBadge | src/pages/groups/GroupCard.tsx:68-77 | The badge and the caption show the same number. |
| GroupCard.CardSample | src/pages/groups/GroupCard.tsx:41-87 | Six members and one admin render "6 members", "1 admin", "+2", "and 2 more" and four initials. With no description the card reads "No description available". |

## Left out

- Network calls (`api.get`, `api.post`) and the session's `login`: each is an outcome parameter. The model states what is sent and the state that follows; it does not model timing, retries or concurrent requests.
- Loading during a request: `isLoading` and `loading` are modelled only at the end of a submit or settle, not in the states between `await`s.
- The query debounce and the admin-groups fetch of the search page: timers and an unconditional fetch, with no logic beyond the call.
- MovieSearch.SettleRequest: the model lets a stale request settle under its own key, as the source does. It does not model which response arrives first.
- Toast rendering, console logging, the modal's DOM and key handling, and the rest of the pure rendering: presentation only.
- `toFixed(1)` in the average rating: the model keeps the exact mean (sum, count). It does not model decimal rounding of floating point.
- `formatDate` and `toLocaleDateString`: locale and clock dependent.
- The insertion order of `Object.entries` over the tally: the tally is a map, so the badges' display order is not modelled.
- String lengths are counted in characters, not UTF-16 code units. Case mapping (`toLowerCase`, `toUpperCase`) covers ASCII letters only.
- The `maxLength` attributes of the create-group inputs (50 and 200) cap typing in the browser. The validation model does not assume them. It checks the lengths as `validateForm` writes them: a name of 3 to 50 characters and a description of at most 250.
- `userId` typed as `User | string` is modelled as a string. GroupCard.PreviewInitials requires the previewed members to have usernames, because the source throws on a missing one.
- MovieCard.RoundedPercent: the model rounds the exact value 100·c/m. The source computes `(c / m) * 100` in IEEE doubles, where some exact halves come out just below. For 23 of 40 the double is 57.49999999999999, so the page shows 57 where the model gives 58. With at most 200 members this happens for 23/40, 46/80, 69/120, 92/160, 29/200, 57/200, 113/200 and 115/200, and never at 0 or at 100%.
- MovieCard.PercentFullIffAllCompleted: it holds only for fewer than 200 members. NearlyFullRoundsToFull shows that 200 of 201 already rounds to 100.
- MovieSearch.ToggleTwiceUnselected: a double toggle restores the list only for an id that was not selected. For a selected one, only the set is restored (ToggleTwiceSameSet), and ToggleTwiceMovesToEnd shows the reordering.
- Signup.SubmitGuard: any response navigates to the login page, as the code is written. A non-2xx status normally reaches the error branch instead, because the HTTP client throws.
- The authentication context, the home page, the group list, persistence of completion flags, and roll-ups across members: not part of this model.

## Findings

| source | as written | input that shows it | evidently intended | confidence | as-written member | corrected member |
|---|---|---|---|---|---|---|
| src/pages/groups/components/MovieCard.tsx:62 | The completion button calls `onToggleCompletion(movie.movieId._id)`. The page keys and looks up movies by `movieId.id` (GroupDetail.tsx:103-110, 141). | The page's own movie has `id` "1" and no `_id`. A click stores `movie-undefined := true` and the card's flag stays `true`. The page class models the click as written (`OnMovieToggle`). | Pass `movie.movieId.id`, as the series card does, so that a click flips the card's status. | not executed | GroupDetail.MovieClickAsWrittenSample | GroupDetail.MovieClickFlips |
| src/pages/groups/CreateGroup.tsx:40-41 | The description is rejected only above 250 characters. The message, the input cap (line 191) and the counter (line 200) all say 200. | The name "Movie club" with a 220-character description passes validation and is posted. The form model validates as written (`ValidationErrors`, `ValidateForm`). | Reject descriptions over 200 characters (`IntendedDescriptionError`, `IntendedValidationErrors`). | not executed | CreateGroup.DescriptionLimitAsWrittenSample | CreateGroup.DescriptionLimitMatchesMessage |
