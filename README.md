# StudentsJobFront in Dafny

A model of the front end of a student job board, a React single-page
application. Its core is the logic inside the screens. The model covers:

- the two search screens. Resume search has a text search, a nine-part
  filter, six sort modes and page slicing. Vacancy search has the same
  filter panel, the age label of a vacancy and the pruning of the query
  string.
- the talent auction. This covers the eligibility gate, the 30-second lobby,
  and four 60-second stages in which three companies bid in 10-second turns.
  It also covers the bid log and the recommendation on the results screen.
- the auction tutorial pager and the "auction starting soon" modal.
- the sign-up and sign-in forms, with the e-mail rule they share.
- the four-step resume wizard and the job application modal.
- the chat screen: sending, deleting, clearing, blocking, closing and
  unblocking a conversation.

Each screen component whose hooks change step by step is a `class`. Its
fields are the hook state. Its methods are the event handlers, and each one
states the new state, often through a pure function that the lemmas reason
about. One second of a `setInterval` timer is one method call. The shared
JavaScript behaviour the screens rely on has its own modules:

- `Text`: `trim`, `toLowerCase`, `includes`, `parseInt`, number-to-string
  and `padStart`.
- `Listing`: `filter`, `slice`, `Math.ceil` page counts, the pager clamps
  and a stable comparator sort.
- `Filters`: the filter panel shared by the two search screens.

Modules (one file each): `Optional`, `Text`, `Listing`, `Filters`,
`Resumes`, `Jobs`, `Auction`, `Tutorial`, `Notification`, `Email`,
`Register`, `Login`, `Wizard`, `Application`, `Chat`.

## Model

| member | source | states |
|---|---|---|
| Text.TrimStart | src/pages/Chat/Chat.tsx:67 | the result is a suffix of the input, does not start with white space, and only white space was removed |
| Text.TrimEnd | src/pages/Chat/Chat.tsx:67 | the result is a prefix of the input, does not end with white space, and only white space was removed |
| Text.Trim | src/pages/Chat/Chat.tsx:67 | `trim`: `trimStart` then `trimEnd`; when the result is empty is stated by `Text.TrimEmptyIff` |
| Text.TrimStartEmptyIff | src/pages/Chat/Chat.tsx:67 | trimming the start leaves nothing exactly when the text is all white space |
| Text.TrimEndEmptyIff | src/pages/Chat/Chat.tsx:67 | trimming the end leaves nothing exactly when the text is all white space |
| Text.TrimEmptyIff | src/pages/Chat/Chat.tsx:67 | `!newMessage.trim()` holds exactly for an all-white-space message |
| Text.LowerChar | src/pages/Resumes/Resumes.tsx:155-160 | lower-casing never turns a visible character into white space |
| Text.ToLower | src/pages/Resumes/Resumes.tsx:155-160 | on text whose capitals are Latin A-Z or Cyrillic U+0400-U+042F, `toLowerCase` lower-cases character by character and keeps the length |
| Text.Includes | src/pages/Resumes/Resumes.tsx:155-160 | `includes`: the text occurs at some position; the empty text always occurs (`Text.EmptyIsIncluded`) |
| Text.IncludesIgnoringCase | src/pages/Resumes/Resumes.tsx:155-160 | `a.toLowerCase().includes(b.toLowerCase())` |
| Text.EmptyIsIncluded | src/pages/Resumes/Resumes.tsx:155-157 | every text includes the empty search string |
| Text.DigitChar | src/pages/Auction/Auction.tsx:212 | a decimal digit character carries the digit's value |
| Text.NatToDigits | src/pages/Auction/Auction.tsx:212 | a natural number prints as at least one digit, with no leading zero |
| Text.Show | src/pages/Auction/Auction.tsx:212 | `toString` of an integer: a minus sign for a negative one, then its decimal digits; read back by `Text.ParseShow` |
| Text.DigitsRoundTrip | src/pages/Auction/Auction.tsx:212 | the printed digits read back as the number |
| Text.LeadingDigits | src/pages/Auction/Auction.tsx:661 | the digit run `parseInt` reads is the longest digit prefix |
| Text.LeadingDigitsOfDigits | src/pages/Auction/Auction.tsx:661 | in an all-digit text the digit run is the whole text |
| Text.ParseSigned | src/pages/Auction/Auction.tsx:661 | `parseInt` gives NaN exactly when no digit follows the optional sign |
| Text.ParseUnsigned | src/pages/Auction/Auction.tsx:661 | an unsigned parse gives NaN exactly when the text does not start with a digit |
| Text.ParseUnsignedDigits | src/pages/Auction/Auction.tsx:661 | an all-digit text parses to its decimal value |
| Text.ParseDigits | src/pages/Auction/Auction.tsx:661 | `parseInt` of an all-digit text is its decimal value |
| Text.ParseSignedDigits | src/pages/Auction/Auction.tsx:661 | `parseInt` of a minus sign and digits is the negated value |
| Text.ParseNatDigits | src/pages/Auction/Auction.tsx:661 | `parseInt` reads back a printed natural number |
| Text.ParseNegatedDigits | src/pages/Auction/Auction.tsx:661 | `parseInt` reads back a printed negative number |
| Text.ParseInt | src/pages/Auction/Auction.tsx:661 | `parseInt` after leading white space; its results are stated by `Text.ParseSigned`, `Text.ParseDigits` and `Text.ParseShow` |
| Text.ParseShow | src/pages/Auction/Auction.tsx:653-661 | `parseInt(String(n)) == n` for every integer printed in plain decimal digits |
| Text.PadTwo | src/pages/Auction/Auction.tsx:212 | `padStart(2, '0')` keeps a longer text and left-pads a shorter one with zeros to length 2 |
| Listing.Without | src/pages/Resumes/Resumes.tsx:95-103 | `filter(item => item !== v)`: equal to `Keep` with that test, so the other elements stay in order; an element is kept exactly when it is not `v` |
| Listing.Toggle | src/pages/Resumes/Resumes.tsx:95-103 | removes every copy of a present value and appends an absent one; stated by `Listing.ToggleMembership` and `Listing.ToggleTwice` |
| Listing.WithoutCounts | src/pages/Resumes/Resumes.tsx:95-103 | every copy of the removed value goes and every copy of the other elements stays |
| Listing.ToggleMembership | src/pages/Resumes/Resumes.tsx:95-103 | a toggled value is present afterwards exactly when it was absent; other values are unaffected |
| Listing.ToggleTwice | src/pages/Jobs/Jobs.tsx:324-332 | toggling the same value twice restores the set of selected values |
| Listing.Keep | src/pages/Resumes/Resumes.tsx:154-170 | `filter` keeps only elements that pass and never grows the list |
| Listing.KeepAppend | src/pages/Jobs/Jobs.tsx:134-139 | filtering a concatenation is the concatenation of the filtered parts |
| Listing.KeepMembers | src/pages/Resumes/Resumes.tsx:154-170 | an element is kept exactly when it is in the input and passes, and no copies are added |
| Listing.SliceIndex | src/pages/Resumes/Resumes.tsx:190-191 | a `slice` bound always lands inside the list |
| Listing.Slice | src/pages/Resumes/Resumes.tsx:190-191 | `slice(start, end)` with both bounds clamped by `Listing.SliceIndex` |
| Listing.PageItems | src/pages/Resumes/Resumes.tsx:188-191 | a page holds at most `perPage` items; it is non-empty exactly when its first index is in range, and then it is the slice starting there |
| Listing.PageItemsMembers | src/pages/Jobs/Jobs.tsx:401-404 | every item on a page comes from the list |
| Listing.MorePagesIff | src/pages/Jobs/Jobs.tsx:405 | `Math.ceil(n / perPage)` exceeds `k` exactly when `k` full pages do not cover the list |
| Listing.TotalPages | src/pages/Resumes/Resumes.tsx:189 | `Math.ceil(n / perPage)`; the least covering page count by `Listing.TotalPagesLeast` |
| Listing.TotalPagesLeast | src/pages/Resumes/Resumes.tsx:189 | the page count is the least number of pages that covers the list |
| Listing.PageNonEmptyIff | src/pages/Resumes/Resumes.tsx:188-191 | page `p` shows items exactly when `p` is at most the page count |
| Listing.PagesPrefix | src/pages/Jobs/Jobs.tsx:401-405 | the first `k` pages, one after another, are the list's prefix of `k * perPage` items |
| Listing.AllPages | src/pages/Jobs/Jobs.tsx:401-405 | all pages, one after another, are exactly the list |
| Listing.PagerClamps | src/pages/Resumes/Resumes.tsx:606-631 | Previous and Next stay within the page range, and move by one unless they are at its end |
| Listing.PreviousPage | src/pages/Resumes/Resumes.tsx:607-612 | `Math.max(page - 1, 1)`; kept in range by `Listing.PagerClamps` |
| Listing.NextPage | src/pages/Resumes/Resumes.tsx:631-632 | `Math.min(page + 1, totalPages)`; kept in range by `Listing.PagerClamps` |
| Listing.Insert | src/pages/Resumes/Resumes.tsx:171-186 | one insertion step adds exactly the new element |
| Listing.RanksAtMostByMultiset | src/pages/Resumes/Resumes.tsx:171-186 | a bound on every key carries over to any sub-multiset |
| Listing.InsertSorted | src/pages/Resumes/Resumes.tsx:171-186 | insertion into a sorted list keeps it sorted |
| Listing.KeepSorted | src/pages/Chat/Chat.tsx:200-226 | filtering a sorted list keeps it sorted |
| Listing.SortByCorrect | src/pages/Resumes/Resumes.tsx:171-186 | the sort returns a sorted permutation of its input |
| Listing.SortBy | src/pages/Resumes/Resumes.tsx:171-186 | `sort` with the comparator `rank(a) - rank(b)`, as insertion of each element after those of no larger rank; a sorted permutation by `Listing.SortByCorrect`, stable by `Listing.SortByStable` |
| Listing.InsertStable | src/pages/Resumes/Resumes.tsx:171-186 | inserting an element puts it after every element of its own rank |
| Listing.SortByStable | src/pages/Resumes/Resumes.tsx:171-186 | the sort is stable: the elements of any one rank appear in their input order |
| Listing.SortByConstant | src/pages/Resumes/Resumes.tsx:184-185 | a comparator that returns 0 for every pair leaves the order unchanged, since the sort is stable |
| Filters.Initial | src/pages/Resumes/Resumes.tsx:43-55 | the initial state is well formed, with the page's multi-select keys and all of them empty |
| Filters.GetDetermines | src/pages/Resumes/Resumes.tsx:25-37 | two filter states that agree on every key are equal |
| Filters.Set | src/pages/Resumes/Resumes.tsx:87-93 | `{ ...prev, [key]: value }` sets that key and leaves every other key as it was |
| Filters.SetLaws | src/pages/Jobs/Jobs.tsx:316-322 | writing back a key's own value changes nothing, and a second write replaces the first |
| Filters.Toggle | src/pages/Resumes/Resumes.tsx:95-103 | toggling a value changes only that key's list, which is the list with the value toggled |
| Filters.ToggleTwice | src/pages/Jobs/Jobs.tsx:324-332 | toggling twice restores the key's set of values and every other key |
| Filters.Clear | src/pages/Resumes/Resumes.tsx:105-110 | `clearFilter` empties a list key or a text key, keeps every other key, and changes nothing for a name that is not a key |
| Filters.ClearAll | src/pages/Resumes/Resumes.tsx:478-490 | Clear All resets text, both ranges and every list, and keeps sort, time frame and page size |
| Filters.ClearAllRestoresInitial | src/pages/Jobs/Jobs.tsx:746-756 | Clear All gives the initial state apart from sort, time frame and page size |
| Filters.ActiveChips | src/pages/Resumes/Resumes.tsx:194-230 | a chip is shown exactly when its filter differs from the default, with the chips in a fixed order |
| Filters.ChipCloseAsWritten | src/pages/Resumes/Resumes.tsx:502 | as written, closing the experience or salary chip leaves the state unchanged, while closing the city or metro chip removes that chip |
| Filters.ExperienceChipStays | src/pages/Jobs/Jobs.tsx:772-773 | a concrete state whose experience chip is still shown after its close button is pressed |
| Filters.CloseChip | src/pages/Resumes/Resumes.tsx:194-230 | closing a chip removes it and keeps every other chip as it was; the closed city or metro filter becomes empty, the closed range gets its default upper bound with the lower bound kept, and every other filter, the lists, sort, time frame and page size keep their values |
| Filters.CloseEveryChip | src/pages/Resumes/Resumes.tsx:194-230 | closing all four chips one by one leaves no chip, and so does Clear All |
| Resumes.Filtered | src/pages/Resumes/Resumes.tsx:154-170 | a resume is listed exactly when it matches the search and all nine filters; nothing is duplicated |
| Resumes.Matches | src/pages/Resumes/Resumes.tsx:154-170 | the search and the city, metro, salary, experience, availability, skills, languages and education conditions, all at once |
| Resumes.ArrangedOrder | src/pages/Resumes/Resumes.tsx:171-186 | the list is a permutation of the matching resumes, ordered by the chosen sort mode; an unknown mode keeps the input order |
| Resumes.Rank | src/pages/Resumes/Resumes.tsx:171-186 | each sort mode's comparator as an ascending key; an unknown mode ranks everything equal |
| Resumes.Arranged | src/pages/Resumes/Resumes.tsx:154-186 | the filtered resumes sorted by the mode's key; stated by `Resumes.ArrangedOrder` and `Resumes.ArrangedMembers` |
| Resumes.ArrangedMembers | src/pages/Resumes/Resumes.tsx:154-186 | sorting does not change which resumes are listed |
| Resumes.EmptySearchMatches | src/pages/Resumes/Resumes.tsx:155-157 | an empty search matches every resume |
| Resumes.UnsetFiltersMatch | src/pages/Resumes/Resumes.tsx:158-168 | with no city, metro or list filter set, only the search and the two ranges decide |
| Resumes.InitialListing | src/pages/Resumes/Resumes.tsx:43-55 | with the initial filters, a resume is listed exactly when it falls in the default salary and experience ranges |
| Resumes.ResumesPage.constructor | src/pages/Resumes/Resumes.tsx:43-58 | the page starts with the initial filters, an empty search and page 1 |
| Resumes.ResumesPage.SetSearchQuery | src/pages/Resumes/Resumes.tsx:57 | typing a search changes only the search |
| Resumes.ResumesPage.HandleFilterChange | src/pages/Resumes/Resumes.tsx:87-93 | sets one filter and returns to page 1 |
| Resumes.ResumesPage.ToggleFilter | src/pages/Resumes/Resumes.tsx:95-103 | toggles one value of a multi-select filter and returns to page 1 |
| Resumes.ResumesPage.ClearFilter | src/pages/Resumes/Resumes.tsx:105-110 | clears one filter and keeps the page |
| Resumes.ResumesPage.ClearAll | src/pages/Resumes/Resumes.tsx:478-490 | resets the filters and keeps the page |
| Resumes.ResumesPage.CloseChip | src/pages/Resumes/Resumes.tsx:502 | a chip's close button, as corrected, removes that chip |
| Resumes.ResumesPage.PreviousPage | src/pages/Resumes/Resumes.tsx:607-612 | Previous moves back one page, never below 1, and the page stays in range |
| Resumes.ResumesPage.NextPage | src/pages/Resumes/Resumes.tsx:631-632 | Next moves on one page, never past the last |
| Resumes.ResumesPage.GoToPage | src/pages/Resumes/Resumes.tsx:617-620 | a numbered button shows a non-empty page |
| Resumes.ShownAreMatches | src/pages/Resumes/Resumes.tsx:154-191 | every resume on screen is in the data and matches the search and filters |
| Jobs.DaysBetween | src/pages/Jobs/Jobs.tsx:345-349 | `Math.floor` of the millisecond difference over a day: the whole days elapsed, rounded down |
| Jobs.AgeOf | src/pages/Jobs/Jobs.tsx:351-356 | the label is Today, Yesterday, days, weeks, months or years by the thresholds 0, 1, 7, 30 and 365, with each count rounded down |
| Jobs.AgeText | src/pages/Jobs/Jobs.tsx:351-356 | the text `formatDate` returns for each label |
| Jobs.AgeMonotone | src/pages/Jobs/Jobs.tsx:345-357 | a label never claims more days than have passed, and an older vacancy never gets a younger label |
| Jobs.BuildQuery | src/pages/Jobs/Jobs.tsx:134-139 | the query holds exactly the entries with a non-empty value, in their input order |
| Jobs.QueryParts | src/pages/Jobs/Jobs.tsx:134-139 | the query can be built part by part, and an entry is in it exactly when its value is non-empty |
| Jobs.JobsPage.constructor | src/pages/Jobs/Jobs.tsx:168-181 | the page starts with the initial filters, an empty search and page 1 |
| Jobs.JobsPage.Load | src/pages/Jobs/Jobs.tsx:211-230 | a server reply replaces the vacancies and nothing else |
| Jobs.JobsPage.SetSearchQuery | src/pages/Jobs/Jobs.tsx:180 | typing a search changes only the search |
| Jobs.JobsPage.HandleFilterChange | src/pages/Jobs/Jobs.tsx:316-322 | sets one filter and returns to page 1 |
| Jobs.JobsPage.ToggleFilter | src/pages/Jobs/Jobs.tsx:324-332 | toggles one value of a multi-select filter and returns to page 1 |
| Jobs.JobsPage.ClearFilter | src/pages/Jobs/Jobs.tsx:334-339 | clears one filter and keeps the page |
| Jobs.JobsPage.ClearAll | src/pages/Jobs/Jobs.tsx:746-756 | resets the filters and keeps the page |
| Jobs.JobsPage.CloseChip | src/pages/Jobs/Jobs.tsx:772-773 | a chip's close button, as corrected, removes that chip |
| Jobs.JobsPage.PreviousPage | src/pages/Jobs/Jobs.tsx:866-870 | Previous moves back one page, never below 1, and the page stays in range |
| Jobs.JobsPage.NextPage | src/pages/Jobs/Jobs.tsx:890-895 | Next moves on one page, never past the last |
| Jobs.JobsPage.GoToPage | src/pages/Jobs/Jobs.tsx:875-879 | a numbered button shows a non-empty page |
| Jobs.PagesCoverVacancies | src/pages/Jobs/Jobs.tsx:401-405 | the pages, one after another, are the whole vacancy list |
| Auction.CompanyIdsDistinct | src/pages/Auction/Auction.tsx:84-100 | the three bidding companies have distinct ids |
| Auction.BidLog.Append | src/pages/Auction/Auction.tsx:230-240 | a bid is appended to its own stage's list, and the other stages are unchanged |
| Auction.GetCurrentStageBids | src/pages/Auction/Auction.tsx:215-228 | the current stage's bids are that stage's list, and an out-of-range stage has none |
| Auction.LobbyTick | src/pages/Auction/Auction.tsx:154-164 | the lobby counts down by one only for an eligible student who has finished the tutorial, and starts the auction at 0 |
| Auction.LobbyCountsDown | src/pages/Auction/Auction.tsx:154-164 | `k` seconds take `k` off the countdown, and the auction starts exactly when it reaches 0 |
| Auction.AuctionStartsAfterThirtySeconds | src/pages/Auction/Auction.tsx:135-164 | the auction starts after exactly 30 seconds, and not before |
| Auction.TickTimers | src/pages/Auction/Auction.tsx:166-207 | one second keeps the clocks in range, counts the stage clock down, moves to the next stage when it runs out, with the stage clock at 60, the first company in turn and the turn clock at 9 (its own callback has already counted down from the reset 10), and changes nothing once the auction is over |
| Auction.StageUpdate | src/pages/Auction/Auction.tsx:169-182 | the stage clock's updater: the next stage with the clocks and the turn reset at `prev <= 0`, one second off otherwise |
| Auction.TurnUpdate | src/pages/Auction/Auction.tsx:184-197 | the company clock's updater: the next company (after the last, the first) at `prev <= 0`, one second off otherwise |
| Auction.Ticks | src/pages/Auction/Auction.tsx:166-207 | `k` seconds of the stage engine; stated by `Auction.TicksCompose`, `Auction.TicksInRange` and `Auction.StageAt` |
| Auction.TicksCompose | src/pages/Auction/Auction.tsx:166-207 | `a + b` seconds are `a` seconds followed by `b` seconds |
| Auction.TicksInRange | src/pages/Auction/Auction.tsx:166-207 | the clocks stay in range however long the auction runs |
| Auction.OneTick | src/pages/Auction/Auction.tsx:166-207 | one second of the many-second function is one timer step |
| Auction.ClocksRunDown | src/pages/Auction/Auction.tsx:169-197 | while neither clock runs out, both count down together |
| Auction.StageClockRunsDown | src/pages/Auction/Auction.tsx:169-182 | the stage clock counts down without changing the stage |
| Auction.TurnRotates | src/pages/Auction/Auction.tsx:186-197 | after 11 seconds the turn passes to the next company with a fresh 10-second clock |
| Auction.StageLasts | src/pages/Auction/Auction.tsx:169-182 | a stage lasts 61 seconds, then the next stage starts with the first company |
| Auction.StagesAfter | src/pages/Auction/Auction.tsx:166-207 | after `k` stages' worth of seconds (61 each), stage `k` is on with the stage clock at 60, the first company in turn and the turn clock at 9 |
| Auction.StageAt | src/pages/Auction/Auction.tsx:166-207 | at second `j` the stage is `j / 61` |
| Auction.FinishedStaysFinished | src/pages/Auction/Auction.tsx:204-206 | once the four stages are over, the clocks no longer change |
| Auction.ClockRoundTrip | src/pages/Auction/Auction.tsx:209-213 | an `m:ss` clock text reads back as `m * 60 + ss` |
| Auction.Render | src/pages/Auction/Auction.tsx:553-558 | the results screen exactly when the flag is set; otherwise the bidding screen of the current stage, and a failed lookup exactly when the stage index is past the fourth stage |
| Auction.LastStageRenderFails | src/pages/Auction/Auction.tsx:166-207 | as written, with the flag still unset, the renders of the auction look up a stage past the fourth exactly at second 244, when the last stage ends |
| Auction.FormatTime | src/pages/Auction/Auction.tsx:209-213 | `formatTime` loses nothing: its `m:ss` text reads back as the seconds given, so no two times show the same text |
| Auction.ReadClock | src/pages/Auction/Auction.tsx:209-213 | reads `m:ss` back, with minutes without a leading zero and seconds below 60; stated by `Auction.ReadClockParts` |
| Auction.ReadClockParts | src/pages/Auction/Auction.tsx:209-213 | a clock text that reads back as `n` shows `n / 60` minutes and `n % 60` seconds and is exactly `formatTime(n)`: `formatTime` is onto the texts `ReadClock` accepts |
| Auction.TwoDigitsShown | src/pages/Auction/Auction.tsx:212 | any two-digit text is the `padStart(2, "0")` of its own value |
| Text.DigitsCanonical | src/pages/Auction/Auction.tsx:212 | digits without a leading zero are the `toString` of their own value |
| Auction.LatestBidAppend | src/pages/Auction/Auction.tsx:407-409 | after a bid, a company's latest bid is that bid if it is theirs, and is unchanged otherwise |
| Auction.LatestBidIsLast | src/pages/Auction/Auction.tsx:407-409 | the latest bid is the company's last bid in the list, and is absent exactly when the company never bid |
| Auction.LatestBid | src/pages/Auction/Auction.tsx:407-409 | `filter(...).pop()` on one stage's bids; stated by `Auction.LatestBidIsLast` and `Auction.LatestBidAppend` |
| Auction.FirstBidIsFirst | src/pages/Auction/Auction.tsx:439-442 | `find` gives the company's first bid in the list, and nothing exactly when it never bid |
| Auction.FirstBid | src/pages/Auction/Auction.tsx:439-442 | `find` on one stage's bids; stated by `Auction.FirstBidIsFirst` and `Auction.FirstBidAppend` |
| Auction.FirstBidAppend | src/pages/Auction/Auction.tsx:439-442 | a later bid never changes the company's first bid |
| Auction.PositionLabelOfLevelButton | src/pages/Auction/Auction.tsx:421-427 | the bid of level button `i` is shown as that level's name |
| Auction.AmountOrZero | src/pages/Auction/Auction.tsx:439-442 | `?.amount \|\| 0` gives 0 for a missing or NaN bid and the amount otherwise |
| Auction.RecommendationFor | src/pages/Auction/Auction.tsx:444-449 | the recommendation is Excellent above 15, Good above 10, Decent above 5 and Consider otherwise |
| Auction.RecommendationMonotone | src/pages/Auction/Auction.tsx:444-449 | a higher score never gives a worse recommendation |
| Auction.Score | src/pages/Auction/Auction.tsx:444 | `salary / 100000 + equity * 2 + benefits / 3 + position * 2` |
| Auction.ScoreAsWritten | src/pages/Auction/Auction.tsx:439-449 | the results screen's score from each stage's first bid, as written; see `Auction.ScoreIgnoresStanding` |
| Auction.StandingScore | src/pages/Auction/Auction.tsx:407-427 | the score from each stage's standing (latest) bid, the corrected score; see `Auction.StandingScoreAfterBid` |
| Auction.NoBidsLowestRecommendation | src/pages/Auction/Auction.tsx:421-449 | a company that never bid shows "No bid" everywhere, scores 0 and is told to reconsider |
| Auction.ScoreIgnoresStanding | src/pages/Auction/Auction.tsx:439-449 | a concrete bid log where the score from first bids gives Consider while the standing bids give Excellent |
| Auction.StandingScoreAfterBid | src/pages/Auction/Auction.tsx:407-427 | a new bid becomes the company's standing bid in its stage, and bids by others leave its score unchanged |
| Auction.AuctionPage.constructor | src/pages/Auction/Auction.tsx:135-152 | the page starts in the lobby at 30 seconds, with the tutorial shown and no bids |
| Auction.AuctionPage.CloseTutorial | src/pages/Auction/Auction.tsx:364-367 | for an eligible student in the lobby, closing the tutorial hides it and marks it completed; otherwise nothing changes |
| Auction.AuctionPage.CountdownTick | src/pages/Auction/Auction.tsx:154-164 | one lobby second is one `LobbyTick` |
| Auction.AuctionPage.Tick | src/pages/Auction/Auction.tsx:166-207 | once the auction has started, one second is one `TickTimers` step; a new stage records the previous one and clears the bid input and the chosen benefits, which are kept otherwise; the results flag is set with the last stage change, so the page never renders a stage past the fourth (the intended behaviour, see Findings) |
| Auction.AuctionPage.SetBidInput | src/pages/Auction/Auction.tsx:653-658 | the amount input takes the text only for the company in turn, on the salary and equity stages of the bidding screen |
| Auction.AuctionPage.ToggleBenefit | src/pages/Auction/Auction.tsx:626-636 | a benefit checkbox toggles its benefit only on the benefits stage and for the company in turn |
| Auction.AuctionPage.HandleBid | src/pages/Auction/Auction.tsx:230-255 | the bid is appended to the current stage's list, carrying the number of chosen benefits on the benefits stage; that stage's input is then cleared |
| Auction.AuctionPage.SubmitBid | src/pages/Auction/Auction.tsx:600-662 | a button press is accepted exactly when it is enabled, and then appends exactly one bid, from the company in turn, to the current stage |
| Tutorial.NextStep | src/components/Modals/AuctionTutorialModal.tsx:49-55 | Next goes to the following slide, and closes on the last |
| Tutorial.PreviousStep | src/components/Modals/AuctionTutorialModal.tsx:57-61 | Previous goes back one slide, and does nothing on the first |
| Tutorial.NextThenPrevious | src/components/Modals/AuctionTutorialModal.tsx:49-61 | Previous undoes Next, and Next undoes Previous |
| Tutorial.NextWalksThrough | src/components/Modals/AuctionTutorialModal.tsx:18-55 | `k` presses of Next advance `k` slides, until the modal closes |
| Tutorial.TutorialModal.constructor | src/components/Modals/AuctionTutorialModal.tsx:47 | the pager opens on the first slide |
| Tutorial.TutorialModal.HandleNext | src/components/Modals/AuctionTutorialModal.tsx:49-55 | the modal closes exactly on the last slide, and advances otherwise |
| Tutorial.TutorialModal.HandlePrevious | src/components/Modals/AuctionTutorialModal.tsx:57-61 | the slide moves back one, not below the first |
| Tutorial.TutorialModal.CloseButton | src/components/Modals/AuctionTutorialModal.tsx:79-81 | the X button closes the modal |
| Notification.NoticeTick | src/components/Modals/AuctionNotificationModal.tsx:15-34 | a closed modal resets to 30; an open one counts down and goes to the auction exactly when the count reaches 0 |
| Notification.CountsDownThenNavigates | src/components/Modals/AuctionNotificationModal.tsx:15-34 | while open, `k` seconds take `k` off the count, and it navigates exactly at 0 |
| Notification.NotificationModal.constructor | src/components/Modals/AuctionNotificationModal.tsx:13 | the count starts at 30 |
| Notification.NotificationModal.Tick | src/components/Modals/AuctionNotificationModal.tsx:15-34 | one second is one `NoticeTick` |
| Notification.NotificationModal.GoToAuctionButton | src/components/Modals/AuctionNotificationModal.tsx:111-115 | the button goes to the auction |
| Notification.NotificationModal.CloseButton | src/components/Modals/AuctionNotificationModal.tsx:105-110 | the button closes the modal |
| Email.ShortMatchIff | src/pages/Auth/Register.tsx:36-40 | the regular expression matches exactly when some `@` and a later `.` leave non-space text on all three sides |
| Email.DotFrom | src/pages/Auth/Register.tsx:36-40 | the dot search finds a match exactly when one exists from that position |
| Email.AtFrom | src/pages/Auth/Register.tsx:36-40 | the `@` search finds a match exactly when one exists from that position |
| Email.RegexTest | src/pages/Auth/Login.tsx:26-30 | the executable test agrees with the regular expression's meaning on every input |
| Email.RegexExamples | src/pages/Auth/Register.tsx:36-40 | the test accepts `a@b.c` and a match inside a longer text, and rejects `a@b` and `@b.c` |
| Email.CheckEmail | src/pages/Auth/Register.tsx:36-40 | an empty e-mail is missing, a non-matching one is invalid, and a matching one passes |
| Register.EmailStep | src/pages/Auth/Register.tsx:36-40 | the e-mail rule: required, then the pattern |
| Register.Password1Step | src/pages/Auth/Register.tsx:42-46 | the password rule: required, then at least 6 UTF-16 units |
| Register.Password2Step | src/pages/Auth/Register.tsx:48-52 | the confirmation rule: required, then equal to the password |
| Register.TermsStep | src/pages/Auth/Register.tsx:54-56 | the terms must be accepted |
| Register.Utf16Length | src/pages/Auth/Register.tsx:44 | JavaScript's `length` counts one unit per character of the Basic Multilingual Plane and two above it, so it lies between the character count and twice it |
| Register.Utf16LengthBmp | src/pages/Auth/Register.tsx:44 | for text of the Basic Multilingual Plane the `length` is the character count |
| Register.Utf16LengthExamples | src/pages/Auth/Register.tsx:44 | three emoji have `length` 6 and three Latin letters 3 |
| Register.RegisterErrors | src/pages/Auth/Register.tsx:33-60 | each field has an error exactly when its rule fails, with the message for that failure; the password length is counted in UTF-16 code units |
| Register.RegisterValidIff | src/pages/Auth/Register.tsx:33-60 | the form validates exactly when the e-mail matches, the password has 6 or more UTF-16 code units and is repeated, and the terms are accepted |
| Register.RegisterPage.constructor | src/pages/Auth/Register.tsx:21-26 | the form starts empty, with no errors |
| Register.RegisterPage.ValidateForm | src/pages/Auth/Register.tsx:33-60 | the errors become `RegisterErrors` of the form, and the result says whether there are none |
| Register.RegisterPage.HandleChange | src/pages/Auth/Register.tsx:62-75 | stores the input, blanks that field's message, and clears the server error |
| Register.RegisterPage.HandleSubmit | src/pages/Auth/Register.tsx:77-94 | `signup` is called with the e-mail and password exactly when the form validates |
| Login.LoginErrors | src/pages/Auth/Login.tsx:23-38 | the e-mail has an error exactly when it does not match, and the password exactly when it is empty |
| Login.LoginValidIff | src/pages/Auth/Login.tsx:23-38 | the form validates exactly when the e-mail matches and a password was typed |
| Login.LoginPage.constructor | src/pages/Auth/Login.tsx:13-16 | the form starts empty, with no errors |
| Login.LoginPage.ValidateForm | src/pages/Auth/Login.tsx:23-38 | the errors become `LoginErrors` of the form, and the result says whether there are none |
| Login.LoginPage.HandleChange | src/pages/Auth/Login.tsx:40-53 | stores the input, blanks that field's message, and clears the server error |
| Login.LoginPage.HandleSubmit | src/pages/Auth/Login.tsx:55-63 | `login` is called with the credentials exactly when the form validates |
| Wizard.StepOf | src/pages/Profile/ResumeWizard.tsx:11-32 | every field belongs to one of the four steps |
| Wizard.Set | src/pages/Profile/ResumeWizard.tsx:68-78 | updating a field sets it and leaves every other field as it was |
| Wizard.FieldsDetermine | src/pages/Profile/ResumeWizard.tsx:11-32 | two forms that agree on every field are equal |
| Wizard.SetLaws | src/pages/Profile/ResumeWizard.tsx:68-78 | writing back a field's own value changes nothing, and a second write replaces the first |
| Wizard.NextStep | src/pages/Profile/ResumeWizard.tsx:87-93 | Next advances one step, and finishes on the last |
| Wizard.BackStep | src/pages/Profile/ResumeWizard.tsx:95-99 | Back goes back one step, and stays on the first |
| Wizard.BackUndoesNext | src/pages/Profile/ResumeWizard.tsx:87-99 | Back undoes Next, and Next undoes Back |
| Wizard.ResumeWizard.constructor | src/pages/Profile/ResumeWizard.tsx:34-65 | the wizard starts on step 1 with the initial form |
| Wizard.ResumeWizard.HandleChange | src/pages/Profile/ResumeWizard.tsx:68-78 | an input of the step on screen updates its field, and the step is kept |
| Wizard.ResumeWizard.HandleEducationSelect | src/pages/Profile/ResumeWizard.tsx:80-85 | choosing an education option on step 3 stores it |
| Wizard.ResumeWizard.HandleNext | src/pages/Profile/ResumeWizard.tsx:87-93 | Next advances the step, or on the last step hands the form over |
| Wizard.ResumeWizard.HandleBack | src/pages/Profile/ResumeWizard.tsx:95-99 | Back moves one step back and keeps the form |
| Application.ApplicationModal.constructor | src/components/Modals/ApplicationModal.tsx:15-17 | nothing is attached and the cover letter is empty |
| Application.IsWordDocument | src/components/Modals/ApplicationModal.tsx:30-38 | the `.doc` and `.docx` MIME types the upload accepts |
| Application.ApplicationModal.SelectResume | src/components/Modals/ApplicationModal.tsx:76-79 | choosing a profile resume drops an uploaded file |
| Application.ApplicationModal.HandleFileChange | src/components/Modals/ApplicationModal.tsx:30-38 | a Word file replaces the chosen resume; any other file is refused with an alert and changes nothing |
| Application.ApplicationModal.SetCoverLetter | src/components/Modals/ApplicationModal.tsx:131-133 | the cover letter takes the typed text |
| Application.ApplicationModal.HandleSubmit | src/components/Modals/ApplicationModal.tsx:20-28 | a payload is sent exactly when the submit button is enabled, it carries either a resume id or a file, never both, and the modal is closed exactly when a payload was sent |
| Chat.ChatListOrder | src/pages/Chat/Chat.tsx:200-226 | the list shows exactly the chats that match the search, newest first |
| Chat.ChatList | src/pages/Chat/Chat.tsx:200-226 | the chats sorted newest first, then filtered by the search; stated by `Chat.ChatListOrder` |
| Chat.EmptySearchListsAll | src/pages/Chat/Chat.tsx:222-226 | an empty search lists every chat |
| Chat.ChatPage.constructor | src/pages/Chat/Chat.tsx:45-58 | the stored chats are loaded, and a chat id in the route that names a stored chat selects it |
| Chat.ChatPage.SelectChat | src/pages/Chat/Chat.tsx:230-234 | selecting a chat shows its messages and status |
| Chat.ChatPage.SetNewMessage | src/pages/Chat/Chat.tsx:391 | typing changes only the message input |
| Chat.ChatPage.HandleSendMessage | src/pages/Chat/Chat.tsx:65-91 | a message is sent exactly when the input is not blank and a chat is selected; it is appended to that chat, which takes it as its last message and time, and the input is cleared |
| Chat.ChatPage.HandleChatAction | src/pages/Chat/Chat.tsx:93-135 | a confirmed delete, clear or block removes, empties or blocks the selected chat; close marks it closed; share opens the share modal; nothing happens without a selection |
| Chat.ChatPage.Unblock | src/pages/Chat/Chat.tsx:370-384 | unblocking makes the chat active again, so the send form shows |

## Left out

- Network calls are not part of this model: fetching and searching vacancies, applying to a vacancy, and the `login` and `signup` calls with their error replies. `Jobs.JobsPage.Load` takes a reply as a given list. The submit handlers return the arguments they would pass to the call.
- `Jobs.BuildQuery` models only the pruning loop of `filterVacancies`. The parameter building in `handleSearch` is left out, because it prints floating-point numbers with `toString`.
- Writes to `localStorage` are left out. The chat dictionary read from it is a constructor argument.
- Timers are method calls: one call of a `Tick` method is one second of a `setInterval`. Creating and clearing the intervals is left out.
- Dates are integers in milliseconds. ISO date strings, `toLocaleDateString`, `toLocaleTimeString` and the `Intl` formatting on the resume cards are not modelled.
- Translated texts are kept as their translation keys; `t()` is left out.
- `alert`, `window.confirm` and `navigate` are boolean inputs or results. JSX rendering, styling and loading spinners are left out.
- `Chat.ChatList` takes the chats as a sequence. The property enumeration order of `Object.values` is left out.
- Filters.Clear: requires a name other than the two range keys and the page size. On a range key the source stores `[]` in place of the pair, on the page size `''`; neither fits the model's types, and no button of the source clears these keys by name.
- Filters.Clear: for a name that is not a key, the source adds a stray property to the state object. The model leaves the state unchanged.
- Text.ToLower: lower-cases only Latin A-Z and the Cyrillic capitals U+0400-U+042F, and keeps every other character. JavaScript's `toLowerCase` applies full Unicode case mapping: it also lower-cases É, Greek and Latin Extended capitals, and a few characters (İ, U+0130) become two code points. The case-insensitive searches on the resume and chat screens inherit this.
- Text.LowerChar: maps one character to one character, so the length-changing mappings of `toLowerCase` are out of reach.
- Text.ParseShow: numbers are exact integers. JavaScript numbers are doubles: `String(n)` prints 1e21 and above in exponent form, which `parseInt` reads as 1, and integers beyond 2^53 are rounded.
- Text.ParseInt: reads decimal text only. The bid input is a number input, whose value never holds the `0x` prefix that would make `parseInt` read hexadecimal.
- Auction.AuctionPage.HandleBid: records a NaN amount as it is, following the code; the source does not reject it either.
- The search query does not reset the page on either search screen. This follows the code.
- The settings menu of the chat screen offers no "close" button, though `handleChatAction` handles the case. `Chat.ChatPage.HandleChatAction` models the handler.
- Downloading a resume and the contact and share modals are not part of this model.

## Findings

| source | as written | input that shows it | evidently intended | confidence | as-written member | corrected member |
|---|---|---|---|---|---|---|
| src/pages/Auction/Auction.tsx:439-449 | the recommendation scores each company's FIRST bid per stage (`find`), while the cards above it show the LATEST bid (407-427); this screen is reached only once the render failure of the row below is corrected | salary bids of 100000 and then 2000000 by one company: the card shows 2000000, the score is 1.0 ("Consider") | score the standing (latest) bids the screen shows, giving 20.0 ("Excellent") | not executed | Auction.ScoreIgnoresStanding | Auction.StandingScoreAfterBid |
| src/pages/Resumes/Resumes.tsx:502 | the experience and salary chips call `clearFilter('experience')` and `clearFilter('salary')` (here and, with the same code, at src/pages/Jobs/Jobs.tsx:772-773), which are not state keys, so the range is not reset and the chip stays | initial filters with `experienceRange` (0, 5): after the experience chip's X the chip is still shown | closing a chip resets its range to the default, so the chip disappears | not executed | Filters.ExperienceChipStays | Filters.CloseChip |
| src/pages/Auction/Auction.tsx:204-206 | the effect sets `showResults` only on its re-run after `currentStage` reaches 4, so the render in between shows the bidding screen and reads `stages[4].name` (553-558, 656), which throws; no error boundary catches it, and the results screen never appears | the auction run to its end: after 244 seconds `currentStage` is 4 and `showResults` is still false | the results screen replaces the bidding screen as the last stage ends | not executed | Auction.LastStageRenderFails | Auction.AuctionPage.Tick |
