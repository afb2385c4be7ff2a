# BrickByBrick front-end logic, modelled in Dafny

BrickByBrick is a Next.js front end for tokenised construction projects.
Most of its code renders pages or calls a blockchain middleware SDK and a
wallet library. This project models the small pieces of deterministic logic
spread through those components and proves what they promise:

- **Building registry reads** (`buildings.dfy`). The projects, home and
  investments pages share this logic:
  - the guard on the building count;
  - one `getBuilding` request per id `1..n`;
  - the positional decoding of each output tuple;
  - the rounded progress percentage.
- **Projects page** (`projects_page.dfy`): the debug banner, and the
  category filter plus the case-insensitive search.
- **Home page** (`home_page.dfy`): the first three featured projects.
- **Investments page** (`investments_page.dfy`):
  - the fetch only for a connected wallet;
  - the per-building mock investment formulas;
  - `formatCurrency`.
- **Project fixtures** (`projects_mock.dfy`):
  - the cyclic stock-photo choice;
  - the image fallback;
  - the six-project fixture.
- **Investment fixtures** (`investments_mock.dfy`):
  - the portfolio totals and return;
  - the date sort;
  - the monthly history of the amount invested.
- **Investment dialog** (`invest_modal.dfy`):
  - the amounts the project page passes (numbers) and the stripping of
    formatted strings;
  - the amount guards;
  - the two halves of `handleInvest` around the awaited call;
  - `handleClose` and Escape;
  - the token input filter and the MAX button.
- **Milestone upload button** (`milestone_upload.dfy`):
  - the classification of the validation response;
  - the five state variables and their handlers.
- **New-project form** (`new_project_form.dfy`): the initial record, the
  shared change handler and the submit handler.
- **How-it-works page** (`how_it_works.dfy`): the scroll-step selection
  (an argmin with ties going to the first index) and the FAQ accordion.
- **Theme provider** (`theme.dfy`): theme resolution, `setTheme`, the
  `useTheme` guard and the toggle button.

Some JavaScript semantics are modelled once and shared:

- `options.dfy`: an option type.
- `text.dfy`: whitespace trimming, lower-casing (ASCII and Latin-1
  capitals only), `includes`, and the `replace` calls that the components
  use.
- `numbers.dfy`:
  - numbers as `NaN | Num(real)`;
  - `parseFloat`, `Number(string)` and `toString` of numbers;
  - `Math.round`, `%` and `toFixed`.
- `values.dfy`: JSON scalars (objects and arrays are not modelled) and their conversions `Number`, `String` and
  `Boolean`.
- `seqs.dfy`: `filter` and `slice`.

Each piece of React state becomes a class, with one field per `useState`
variable. Each async handler is split at its `await`. The first method runs
up to the awaited call and returns what it sends. The second method takes
the settled result and finishes the handler. Contract calls, `fetch`,
`onInvest`, the DOM and browser storage become parameters.

Where the code is more specific than a plain reading of the behaviour, the
model follows the code. Three cases:

- A saved theme that is the empty string is ignored, because of `||`.
- An upload error whose message is empty does not reset the button on
  close, because the test is on truthiness.
- A NaN token supply never blocks an amount, because every comparison with
  NaN is false.

## Model

| member | source | states |
|---|---|---|
| BuildingRegistry.Progress | src/app/projects/page.tsx:79-84 | 0 when the milestone total is not a positive number; NaN exactly when the total is positive and the completed count is NaN; otherwise a whole percentage |
| BuildingRegistry.ProgressCases | src/app/projects/page.tsx:79-84 | progress is 0 when the milestone total is not a positive number; otherwise it is within half a point of the exact completed percentage |
| BuildingRegistry.ProgressIsPercentage | src/app/projects/page.tsx:79-84 | with 0 ≤ completed ≤ total, progress lies in [0, 100] and equals 100 when completed = total |
| BuildingRegistry.ProgressMonotonic | src/app/projects/page.tsx:79-84 | more completed milestones never give a smaller progress |
| BuildingRegistry.Decode | src/app/projects/page.tsx:86-101 | every decoded building has the constant category, total value and token supply, and its progress is `Progress` of its own milestone counts |
| BuildingRegistry.DecodeAll | src/app/projects/page.tsx:76-102 | decoding keeps the number of outputs and their order, one decoded building per output |
| BuildingRegistry.DecodeEncode | src/app/projects/page.tsx:86-101 | positions 0, 1, 11, 12, 10, 6, 7, 8 are read back as id, name, description, location, featured, status, totalMilestones and milestonesCompleted; category, totalValue and tokensAvailable are the constants |
| BuildingRegistry.DecodedCategoryIsConstant | src/app/projects/page.tsx:98 | every decoded building has category `Comercial` |
| BuildingRegistry.RequestIds | src/app/projects/page.tsx:63 | the number of requests is the number of loop iterations for the count |
| BuildingRegistry.RequestIdsAscending | src/app/projects/page.tsx:63-72 | request k asks for id k+1, so the ids are 1..n ascending |
| BuildingRegistry.RequestBuildings | src/app/projects/page.tsx:62-72 | the loop produces exactly those ids, one call per id, in order |
| BuildingRegistry.AwaitAll | src/app/projects/page.tsx:74 | the calls all succeed iff the result is their values in order; otherwise it is the error of one of the calls |
| BuildingRegistry.GuardedFetchIsEmpty | src/app/projects/page.tsx:55-60 | a NaN or non-positive count gives the empty list and requests no building |
| BuildingRegistry.FetchKeepsOrder | src/app/projects/page.tsx:62-104 | a successful load holds one decoded building per requested id, in id order |
| BuildingRegistry.Fetch | src/app/projects/page.tsx:45-104 | the imperative guard, loop, await and decode give the specified result and the requested ids |
| ProjectsPage.DebugMessage | src/app/projects/page.tsx:105-114 | an API error shows `Erro API: ` with the response's message, or else the error's message; any other error shows its own text |
| ProjectsPage.ApiMessageShown | src/app/projects/page.tsx:107-108 | an API error carrying a truthy message shows a non-empty text after the prefix |
| ProjectsPage.SearchTerm | src/app/projects/page.tsx:133 | the normalised term is no longer than the typed one and is already lower case |
| ProjectsPage.FilterBuildings | src/app/projects/page.tsx:123-143 | the list is no longer than the input and holds only input buildings of the selected category (any, for `All Categories`) |
| ProjectsPage.FilterBuildingsIsOneFilter | src/app/projects/page.tsx:123-143 | the category filter followed by the search filter equals one filter by the combined test |
| ProjectsPage.FilterBuildingsSpec | src/app/projects/page.tsx:123-143 | the filtered list is an order-preserving subsequence of the input and holds exactly the input buildings that pass both tests |
| ProjectsPage.UnfilteredIsIdentity | src/app/projects/page.tsx:126-132 | `All Categories` with an empty or whitespace-only term returns the input unchanged |
| ProjectsPage.SearchIff | src/app/projects/page.tsx:132-140 | a building survives the search iff the lower-cased trimmed term occurs in its lower-cased name, location or category (lowering ASCII and Latin-1 capitals only) |
| ProjectsPage.OtherCategoriesEmpty | src/app/projects/page.tsx:126-129 | loaded buildings are all `Comercial`, so choosing `Residential` or `Commercial` lists nothing |
| ProjectsPage.BuildingsPage.constructor | src/app/projects/page.tsx:26-30 | initial state: empty term, all categories, no buildings, loading, no error |
| ProjectsPage.BuildingsPage.SetSearchTerm | src/app/projects/page.tsx:189 | typing replaces only the search term |
| ProjectsPage.BuildingsPage.SetSelectedCategory | src/app/projects/page.tsx:196 | choosing replaces only the category |
| ProjectsPage.BuildingsPage.FetchBlockchainData | src/app/projects/page.tsx:41-117 | on success the list is replaced and the error cleared; on failure the list is kept and the banner set; loading is false either way |
| HomePage.FeaturedProjects | src/app/page.tsx:117 | at most three buildings, each featured and from the input |
| HomePage.FeaturedProjectsSpec | src/app/page.tsx:117 | the selection has min(3, k) elements, is a prefix of the featured buildings in input order, and each is featured and comes from the input |
| HomePage.ThreeFeaturedShown | src/app/page.tsx:117 | with at least three featured buildings, exactly the first three are shown |
| HomePage.Home.constructor | src/app/page.tsx:28-29 | initially no buildings and loading |
| HomePage.Home.FetchBlockchainData | src/app/page.tsx:40-112 | on success the list is replaced; an error only keeps the list; loading is false either way; the requested ids are those of the projects page |
| InvestmentsPage.MockAmountInvested | src/app/investments/page.tsx:446 | NaN exactly for a NaN id; otherwise the id is recovered as (amount − 125000) / 15000 |
| InvestmentsPage.MockAmountIncreasing | src/app/investments/page.tsx:446 | the mock amount 125000 + 15000·id is strictly increasing in the id |
| InvestmentsPage.TokensOwned | src/app/investments/page.tsx:450 | the tokens owned, priced at 0.25 each, cost exactly the amount invested |
| InvestmentsPage.TokensOwnedIsFourTimes | src/app/investments/page.tsx:450 | dividing by 0.25 is multiplying by 4 |
| InvestmentsPage.InvestmentMonth | src/app/investments/page.tsx:451 | NaN exactly for a NaN id; otherwise strictly between −12 and 12, and non-negative for a non-negative id |
| InvestmentsPage.InvestmentMonthRange | src/app/investments/page.tsx:451 | for a whole id ≥ 0 the month index is id mod 12, in 0..11, and periodic with period 12 |
| InvestmentsPage.FormatCurrency | src/app/investments/page.tsx:162-167 | the text starts with `$` and ends in `M` iff the value is at least 1,000,000 |
| InvestmentsPage.FormatCurrencyShape | src/app/investments/page.tsx:162-167 | the text starts with `$`; it ends in `M` iff the value ≥ 1,000,000 (then with one decimal, as JavaScript prints it for values below 1e27), otherwise in `K` (digits only for a non-negative value) |
| InvestmentsPage.Investments.constructor | src/app/investments/page.tsx:42-43 | initially no buildings and loading |
| InvestmentsPage.Investments.OnConnection | src/app/investments/page.tsx:128-137 | a connected wallet loads like the other pages and ends loading; a disconnected one requests nothing and is sent to `/` |
| ProjectsMock.PhotoIndex | src/app/projects/mockData.ts:11 | an index that names an element is below 6 |
| ProjectsMock.WholeIdPhoto | src/app/projects/mockData.ts:11 | for a whole id ≥ 1 the photo index is (id−1) mod 6 |
| ProjectsMock.FirstSixInOrder | src/app/projects/mockData.ts:1-11 | ids 1..6 take the six photos in the listed order |
| ProjectsMock.SmallIdsUndefined | src/app/projects/mockData.ts:11 | ids in (−5, 1) index past the array, and the URL then embeds `undefined` |
| ProjectsMock.GetPexelsImage | src/app/projects/mockData.ts:10-13 | every image is a Pexels URL: it starts with the photo prefix and ends with the fixed crop parameters |
| ProjectsMock.PexelsPeriodic | src/app/projects/mockData.ts:10-13 | for id ≥ 1 the image for id+6 is the image for id |
| ProjectsMock.PhotoUrlInjective | src/app/projects/mockData.ts:12 | the URL embeds the photo id twice and determines it |
| ProjectsMock.SameImageIff | src/app/projects/mockData.ts:10-13 | two whole ids ≥ 1 get the same image iff they are congruent mod 6, so ids 1..6 get distinct images |
| ProjectsMock.GetProjectImage | src/app/projects/mockData.ts:29-34 | the project's image when it is present and non-empty, else the stock photo for its id |
| ProjectsMock.FixtureWellFormed | src/app/projects/mockData.ts:36-117 | fixture ids are 1..6, ascending; completed ≤ total milestones; the category is Residential or Commercial; each shows its own image |
| InvestmentsMock.InvestmentsLinkProjects | src/app/investments/mockData.ts:14-55 | each investment's project has the id its `projectId` names and is a fixture project |
| InvestmentsMock.GetTotalInvested | src/app/investments/mockData.ts:57-62 | the total invested is a number iff every `amountInvested` parses |
| InvestmentsMock.GetTotalCurrentValue | src/app/investments/mockData.ts:64-69 | the total current value is a number iff every `currentValue` parses |
| InvestmentsMock.TotalAppend | src/app/investments/mockData.ts:57-62 | the reduce-sum of a concatenation is the sum of the two totals |
| InvestmentsMock.TotalNaN | src/app/investments/mockData.ts:57-62 | the total is a number iff every amount parses; non-negative amounts give a non-negative total |
| InvestmentsMock.FixtureTotals | src/app/investments/mockData.ts:57-69 | over the fixture the total invested is 560000 and the current value 639000 |
| InvestmentsMock.ReturnPercentage | src/app/investments/mockData.ts:74 | a percentage exists iff both totals are numbers and the amount invested is not 0; growing the amount invested by it gives the current value |
| InvestmentsMock.GetTotalReturn | src/app/investments/mockData.ts:71-75 | the portfolio has a return iff both totals are numbers and the amount invested is not 0 |
| InvestmentsMock.ReturnSign | src/app/investments/mockData.ts:71-75 | with a positive amount invested, the return is ≥ 0 iff current ≥ invested, and 0 iff they are equal |
| InvestmentsMock.FixtureReturn | src/app/investments/mockData.ts:71-75 | the fixture's return is 395/28 percent |
| InvestmentsMock.DayKeyOrdersDates | src/app/investments/mockData.ts:89-93 | the date key orders valid dates as the calendar does |
| InvestmentsMock.Insert | src/app/investments/mockData.ts:89-93 | insertion adds exactly one element |
| InvestmentsMock.SortByDate | src/app/investments/mockData.ts:89-93 | the sorted copy has the input's length |
| InvestmentsMock.SortPermutes | src/app/investments/mockData.ts:89-93 | sorting the copy is a permutation |
| InvestmentsMock.SortSorts | src/app/investments/mockData.ts:89-93 | with valid dates the sorted copy is in date order |
| InvestmentsMock.SortedUnchanged | src/app/investments/mockData.ts:89-93 | a list already in date order is returned as it is |
| InvestmentsMock.FixtureSorted | src/app/investments/mockData.ts:14-55 | the fixture is in date order, so sorting the copy yields the fixture order |
| InvestmentsMock.AccumulateShift | src/app/investments/mockData.ts:100-114 | the inner pass adds to the running total the sum of the investments made by the month's date |
| InvestmentsMock.AsWrittenReAdds | src/app/investments/mockData.ts:111 | each month's running total is the previous month's plus everything invested by this month |
| InvestmentsMock.InvestedAsOfMonotonic | src/app/investments/mockData.ts:100-102 | with non-negative amounts, the sum invested by a date never decreases with the date |
| InvestmentsMock.InvestedAsOfAll | src/app/investments/mockData.ts:100-102 | once every investment is made, the sum by the date is the total invested |
| InvestmentsMock.CorrectedNonDecreasing | src/app/investments/mockData.ts:95-121 | the corrected invested series is non-decreasing |
| InvestmentsMock.AsWrittenNonDecreasing | src/app/investments/mockData.ts:86-87 | the as-written series, never reset, is non-decreasing and grows by the sum invested by each month |
| InvestmentsMock.AddMadeBy | src/app/investments/mockData.ts:100-114 | the `forEach` loop adds exactly the investments made by the date |
| InvestmentsMock.GetPortfolioHistory | src/app/investments/mockData.ts:83-124 | the loop as written yields 7 monthly points whose running totals keep re-adding earlier investments |
| InvestmentsMock.GetPortfolioHistoryCorrected | src/app/investments/mockData.ts:83-124 | with the total reset per month, the 7 points give the sum invested by each month |
| InvestmentsMock.FixtureInvestedAtMonth | src/app/investments/mockData.ts:95-114 | the fixture's sums invested by months 0..6 are 0, 125000, 210000, 410000, 560000, 560000, 560000 |
| InvestmentsMock.FixtureCumulativeAt | src/app/investments/mockData.ts:95-114 | the as-written running totals of the fixture are 0, 125000, 335000, 745000, 1305000, 1865000, 2425000 |
| InvestmentsMock.PortfolioHistoryOvercounts | src/app/investments/mockData.ts:111 | at 2025-03-01 the as-written history shows 335000 invested, while the corrected one shows 210000 |
| InvestmentsMock.FixtureHistoryEnds | src/app/investments/mockData.ts:95-121 | the corrected history has 7 points, is non-decreasing and ends at the total invested (560000); the as-written one ends at 2425000 |
| InvestmentsMock.FixtureCorrectedNonDecreasing | src/app/investments/mockData.ts:95-121 | the fixture's corrected series is non-decreasing |
| InvestModalDialog.ParseStrippedIsParseFloat | src/components/InvestModal.tsx:24-32 | the strip-then-parse reading of the amounts is `parseFloat` of the stripped text |
| InvestModalDialog.ReadStripped | src/components/InvestModal.tsx:27 | text that strips to the decimal digits of n reads as n |
| InvestModalDialog.KeepNumericDropsCommas | src/components/InvestModal.tsx:27 | stripping removes a thousands comma between numeric runs |
| InvestModalDialog.DecodedTotalRead | src/components/InvestModal.tsx:24-27 | `1,500,000` reads as 1500000 |
| InvestModalDialog.DecodedTokensRead | src/components/InvestModal.tsx:29-32 | `50,000` reads as 50000 |
| InvestModalDialog.DecodedPrice | src/components/InvestModal.tsx:33 | the two decoded string constants, `1,500,000` and `50,000`, read by the strip, divide to 30 per token |
| InvestModalDialog.PricePerToken | src/components/InvestModal.tsx:33 | the price is a number iff both amounts are and the supply is not 0, and then price × supply is the total value |
| InvestModalDialog.AllTokensCostTotal | src/components/InvestModal.tsx:33-36 | buying every available token costs the project's total value |
| InvestModalDialog.TokenAmountNum | src/components/InvestModal.tsx:35 | a non-zero result is what `parseFloat` read; an unreadable amount gives 0 |
| InvestModalDialog.Validate | src/components/InvestModal.tsx:40-49 | an error is the invalid-amount error or the maximum-available error carrying the maximum; no error means a positive amount within a readable maximum |
| InvestModalDialog.ValidateIff | src/components/InvestModal.tsx:40-49 | an amount passes iff it parses to a positive number not above the maximum (a NaN maximum never blocks); it is invalid iff it does not parse to a positive number |
| InvestModalDialog.MaximumExceeded | src/components/InvestModal.tsx:46-49 | a positive amount above a positive maximum gets the maximum-available error |
| InvestModalDialog.DisabledIffInvalid | src/components/InvestModal.tsx:241 | when not loading, Confirm is disabled iff the first guard of `handleInvest` would reject |
| InvestModalDialog.MaxIsAccepted | src/components/InvestModal.tsx:190 | MAX for a whole maximum n ≥ 1 writes text that passes the input filter, reads back as n and passes both guards |
| InvestModalDialog.FailureText | src/components/InvestModal.tsx:59-61 | an `Error`'s message, or the fixed fallback text |
| InvestModalDialog.ReadAmount | src/components/InvestModal.tsx:24-32 | a number amount is used as it is; a string amount is `parseFloat` of its digits and dots |
| InvestModalDialog.ProjectAmounts | src/components/InvestButton.tsx:63-68 | the project handed to the dialog comes from `src/app/projects/[id]/page.tsx:62-94`, and both its amounts are numbers: 5000000 and 250000 without sale data, otherwise a supply within half a token of offered minus sold |
| InvestModalDialog.DefaultProjectPrice | src/components/InvestModal.tsx:24-33 | with the project page's defaults (no sale data, `[id]/page.tsx:62-63`) the dialog prices a token at 20 |
| InvestModalDialog.OversoldRefusesAll | src/components/InvestModal.tsx:40-49 | when more tokens are sold than offered (`[id]/page.tsx:92-94`) the supply is negative and the dialog refuses every amount |
| InvestModalDialog.InvestModal.constructor | src/components/InvestModal.tsx:20-38 | empty amount, not loading, no error; the total value and the maximum are the two amounts read by `ReadAmount`, numbers or strings |
| InvestModalDialog.InvestModal.HandleInvest | src/components/InvestModal.tsx:40-55 | a rejected amount sets its error and calls nothing; a valid one clears the error, starts loading and calls `onInvest` with amount × price and the amount; the amount is kept |
| InvestModalDialog.InvestModal.InvestSettled | src/components/InvestModal.tsx:55-64 | on success the amount is cleared and the dialog asks to close; on failure the error is set and the amount kept; loading ends either way |
| InvestModalDialog.InvestModal.HandleClose | src/components/InvestModal.tsx:67-73 | ignored while loading; otherwise the amount and error are cleared and the dialog asks to close |
| InvestModalDialog.InvestModal.HandleKeyDown | src/components/InvestModal.tsx:75-86 | Escape on an open dialog that is not loading closes it as `handleClose` does; any other key changes nothing |
| InvestModalDialog.InvestModal.OnTokenInput | src/components/InvestModal.tsx:172-181 | `''` or text that reads as a non-negative number replaces the amount and clears the error; other input changes nothing |
| InvestModalDialog.InvestModal.OnMax | src/components/InvestModal.tsx:190 | the amount becomes the maximum's `toString()` and nothing else changes |
| MilestoneUpload.Classify | src/components/MilestoneUploadButton.tsx:49-85 | the upload passes iff the response is ok, its body parses and `is_valid` is `true` or `'true'`; anything else is an error |
| MilestoneUpload.ErrorPrecedence | src/components/MilestoneUploadButton.tsx:49-77 | a failing response shows the body's `message`, else its `error` |
| MilestoneUpload.StatusLineFallback | src/components/MilestoneUploadButton.tsx:49-56 | a non-ok response without either shows `Error uploading file: <status> <statusText>` |
| MilestoneUpload.FallbackTexts | src/components/MilestoneUploadButton.tsx:61-77 | `false`/`'false'` without a message gives the not-passed text; any other non-true value gives the invalid-response text |
| MilestoneUpload.UploadButton.constructor | src/components/MilestoneUploadButton.tsx:16-20 | all five fields start cleared |
| MilestoneUpload.UploadButton.HandleFileSelect | src/components/MilestoneUploadButton.tsx:23-37 | a chosen file is recorded, error and success are cleared, the dialog opens and the upload starts; no file changes nothing |
| MilestoneUpload.UploadButton.UploadSettled | src/components/MilestoneUploadButton.tsx:69-88 | a pass sets success; an error sets the message and drops the file; uploading ends; success and error are never both set |
| MilestoneUpload.UploadButton.HandleCloseModal | src/components/MilestoneUploadButton.tsx:91-100 | ignored while uploading; otherwise the dialog closes and, after a pass or a non-empty error, file, error and success are reset |
| MilestoneUpload.UploadOnce | src/components/MilestoneUploadButton.tsx:23-119 | after a whole upload the button is disabled iff it passed, and after an error the file is gone |
| NewProjectForm.StoredValue | src/app/builder/new/page.tsx:32-33 | a checkbox stores its `checked` flag, any other input its string value |
| NewProjectForm.InitialFormFields | src/app/builder/new/page.tsx:7-18 | ten fields: category `Residential`, totalMilestones `8`, featured false, all others empty |
| NewProjectForm.ApplyChange | src/app/builder/new/page.tsx:29-34 | the named field is added if absent and holds the event's stored value |
| NewProjectForm.ChangeOnlyNamedField | src/app/builder/new/page.tsx:29-34 | a change sets the named field and leaves every other field as it was |
| NewProjectForm.ChangeIdempotent | src/app/builder/new/page.tsx:29-34 | applying the same change twice equals applying it once |
| NewProjectForm.ChangesCommute | src/app/builder/new/page.tsx:29-34 | changes to different fields commute |
| NewProjectForm.ChangesKeepFields | src/app/builder/new/page.tsx:26-35 | any sequence of changes to existing fields keeps the set of fields |
| NewProjectForm.NewProjectPage.constructor | src/app/builder/new/page.tsx:7-18 | the record starts as the initial form |
| NewProjectForm.NewProjectPage.HandleChange | src/app/builder/new/page.tsx:26-35 | the record becomes the previous one with the named field replaced |
| NewProjectForm.NewProjectPage.HandleSubmit | src/app/builder/new/page.tsx:20-24 | logs the record and shows the success alert without changing the record |
| HowItWorks.ActiveStepFor | src/app/how-it-works/page.tsx:146-172 | 0 when no mounted step is in the window; otherwise a step in the window with the smallest distance to the viewport centre, and no earlier step is as close |
| HowItWorks.HowItWorksPage.constructor | src/app/how-it-works/page.tsx:142 | the active step starts at 0 |
| HowItWorks.HowItWorksPage.UpdateActiveStep | src/app/how-it-works/page.tsx:146-173 | the active step becomes the nearest step in the window, the first of them on a tie, or 0 when none is in the window |
| HowItWorks.Toggle | src/app/how-it-works/page.tsx:370-372 | the item is open afterwards iff it was not open before; nothing is open iff it was the open one |
| HowItWorks.ToggleTwice | src/app/how-it-works/page.tsx:370-372 | toggling an index twice restores the state from nothing open or from that index open |
| HowItWorks.ToggleTwiceFromOther | src/app/how-it-works/page.tsx:370-372 | from another item open, toggling twice leaves nothing open |
| HowItWorks.FaqAccordion.constructor | src/app/how-it-works/page.tsx:345 | nothing is open initially |
| HowItWorks.FaqAccordion.ToggleItem | src/app/how-it-works/page.tsx:370-372 | afterwards at most the toggled item is open, and only if it was closed before |
| Theme.InitialTheme | src/contexts/ThemeContext.tsx:29-34 | a non-empty saved theme wins; otherwise `dark` iff the system prefers dark; light or dark whenever the saved value is absent or a theme |
| Theme.ReloadRestores | src/contexts/ThemeContext.tsx:34-48 | a theme saved by `setTheme` is the theme resolved on the next load, whatever the system prefers |
| Theme.UseTheme | src/contexts/ThemeContext.tsx:64-69 | outside a provider the hook throws the fixed message; inside it returns the provider's value |
| Theme.ThemeProvider.constructor | src/contexts/ThemeContext.tsx:22-23 | before mount: `light`, not mounted |
| Theme.ThemeProvider.Context | src/contexts/ThemeContext.tsx:58 | the shared value carries the current theme and mounted flag |
| Theme.ThemeProvider.MountEffect | src/contexts/ThemeContext.tsx:25-43 | the `dark` class is set at once iff the resolved theme is dark; the theme update is queued |
| Theme.ThemeProvider.TimersFire | src/contexts/ThemeContext.tsx:26-37 | the provider is mounted and takes the queued theme |
| Theme.ThemeProvider.SetTheme | src/contexts/ThemeContext.tsx:46-55 | state and saved entry both equal the new theme; the `dark` class is present iff it is `dark` |
| Theme.Mount | src/contexts/ThemeContext.tsx:25-44 | after mounting, the theme is the resolved one and agrees with the `dark` class |
| Theme.SetThemeTwice | src/contexts/ThemeContext.tsx:46-55 | setting the same theme twice gives the state of setting it once |
| Theme.Flip | src/components/ThemeToggle.tsx:34 | the toggle picks `dark` iff the theme is not `dark` |
| Theme.FlipTwice | src/components/ThemeToggle.tsx:30-34 | two clicks restore a light or dark theme |
| Theme.ThemeProvider.ClickToggle | src/components/ThemeToggle.tsx:8-34 | before mount the button does nothing; afterwards it sets the flipped theme, in sync |
| JsText.TrimEmptyIff | src/app/projects/page.tsx:132 | `trim()` is empty iff every character is whitespace |
| JsText.ToLowerIdempotent | src/app/projects/page.tsx:133 | lower-casing twice equals lower-casing once |
| JsText.IncludesIff | src/app/projects/page.tsx:136-138 | `includes` holds iff the term occurs at some position |
| JsText.RemoveChar | src/app/investments/mockData.ts:59 | removing commas leaves no comma and keeps every other character |
| JsText.KeepNumericContents | src/components/InvestModal.tsx:27 | stripping keeps exactly the digits and `.` of the input |
| JsText.KeepNumericIdempotent | src/components/InvestModal.tsx:27 | stripping twice equals stripping once |
| JsText.KeepNumericAppend | src/components/InvestModal.tsx:27 | stripping works character by character over a concatenation |
| JsNumbers.DecimalRoundTrip | src/app/projects/page.tsx:69 | the decimal digits of n read back as n |
| JsNumbers.ParseDecimal | src/app/projects/page.tsx:69 | `Number(i.toString())` and `parseFloat(i.toString())` give i back |
| JsNumbers.NatToDecimalInjective | src/app/projects/mockData.ts:12 | distinct whole numbers print differently |
| JsNumbers.WholeNumberToString | src/components/InvestModal.tsx:190 | `toString` of a whole number, in the plain-digit form JavaScript uses below 1e21, is its decimal digits and parses back to it |
| JsNumbers.RoundNearest | src/app/projects/page.tsx:83 | `Math.round` is within half of its argument |
| JsNumbers.FixedShape | src/app/investments/page.tsx:164-166 | `toFixed(d)` of a non-negative value, in the plain-digit form JavaScript uses below 1e21, is digits, with a point before the last d digits when d > 0 |
| JsNumbers.RemWhole | src/app/investments/page.tsx:451 | `%` on whole numbers is the remainder |
| JsNumbers.RemPeriodic | src/app/projects/mockData.ts:11 | `%` of a non-negative value is periodic in the divisor |
| JsValues.TruthyPrintsNonEmpty | src/components/MilestoneUploadButton.tsx:52-54 | a truthy value never prints as the empty string |
| JsValues.FirstTruthy | src/components/MilestoneUploadButton.tsx:52-54 | `a \|\| b \|\| fallback` is the first truthy candidate, else the fallback |
| Seqs.FilterMembers | src/app/projects/page.tsx:127-139 | an element survives a filter iff it is in the input and passes |
| Seqs.FilterIsSubsequence | src/app/projects/page.tsx:127-139 | a filter keeps the input order |
| Seqs.FilterFilter | src/app/projects/page.tsx:127-139 | two filters in a row are one filter by both tests |
| Seqs.FilterCount | src/app/page.tsx:117 | a filter keeps as many elements as pass the test |
| Seqs.Take | src/app/page.tsx:117 | `slice(0, k)` is a prefix of length min(k, length) |

## Left out

- The middleware SDK calls, `Promise.all`, axios, wagmi and RainbowKit are abstract inputs. Each contract call is a returned value or a thrown error, and the count is a JSON value. Which rejection `Promise.all` reports when several calls fail is not modelled: the model takes the first in order.
- `fetch` to the validation route is a response record. The API route, `src/app/api/validate/route.ts`, is a proxy to an external service and is not part of this model.
- The builder dashboard, `src/app/builder/page.tsx`, is not part of this model. Its decode is the one `BuildingRegistry.Decode` models.
- Floating point is modelled as exact rationals, including `Math.round`. Infinity is not a value: a count of Infinity is not modelled, the scroll loop's initial `Infinity` is "no distance yet", and `InvestmentsMock.ReturnPercentage` gives `None` for a zero amount invested, where `mockData.ts:74` gives ±Infinity, or NaN when the current value is 0 too.
- `parseFloat` and `Number` cover decimal literals only, with no exponent, hex or `Infinity` forms. `toString` and `toFixed` always print plain digits. JavaScript's `toString` switches to exponent form when |x| ≥ 1e21 or 0 < |x| < 1e-6, for example `1e+21` and `1e-7`, and `toFixed` returns that same `toString` form when |x| ≥ 1e21. Below those thresholds `toString` is exact for values with at most 20 fraction digits.
- JsNumbers.WholeNumberToString: its first clause, the decimal digits, matches JavaScript only for n < 1e21; from 1e21 up JavaScript prints `1e+21` and so on. That form still reads back as n through `parseFloat` and `Number`. So for a maximum of 1e21 or more, the MAX button of `InvestModalDialog.InvestModal.OnMax` writes a different text than the model, but the same amount.
- JsNumbers.FixedShape: the digits-and-point shape matches JavaScript only for x < 1e21; from 1e21 up `toFixed` gives the exponent form.
- InvestmentsPage.FormatCurrencyShape: the one decimal before `M` matches JavaScript only for values below 1e27, where value / 1e6 stays below 1e21. From 1e27 up JavaScript gives, for example, `$1e+21M`.
- `toLocaleString` formatting is not modelled. `InvestModalDialog.InvestError` keeps the maximum as a number instead of the formatted message, and the displayed token counts are not modelled.
- The price-per-token display `toFixed(4)` and the summary values are not modelled. The same goes for `amount * 1.15`, the profit and return percentages of the mock cards, and the growth-factor value series of `getPortfolioHistory`.
- Dates are valid `YYYY-MM-DD` strings read as UTC midnights. The month points are the first of each month from 2025-01. `setMonth`, `toISOString` and `toLocaleDateString` are not modelled.
- The dialog's only caller is `src/components/InvestButton.tsx:63`, reached from `src/app/projects/[id]/page.tsx:347`, which passes numbers. That page's contract calls and its `BigInt` and `1e18` conversions are not modelled: `InvestModalDialog.ProjectAmounts` takes the sale figures already converted.
- The DOM is not modelled:
  - `getBoundingClientRect`, scroll listeners and `IntersectionObserver`: the observer's own heuristic is left out because it only calls `setActiveStep`;
  - `localStorage` and `matchMedia`, which are parameters;
  - `setTimeout` timing: the mount timers are one step.
- Browser-enforced attributes such as `required`, `min` and `maxLength`, and the file input's `disabled` during an upload, are not modelled.
- JsText.ToLower: only ASCII `A`–`Z` and the Latin-1 capitals U+00C0–U+00DE (except U+00D7) are lowered. JavaScript's `toLowerCase` also lowers other scripts (Latin Extended, Greek, Cyrillic), maps U+212A to `k`, and turns U+0130 into two code units. A term or name outside this mapping may match in JavaScript but not in the model.
- ProjectsPage.SearchIff: states the search for the lowering of `JsText.ToLower` above, not for JavaScript's full Unicode case mapping.
- MilestoneUpload.Classify: the response body is modelled as an unparsable body or an object whose fields are JSON scalars. Two cases are not modelled:
  - A body of `null`: `response.json()` resolves to `null`, so `.catch` does not replace it. Reading `errorData.message` or `data.is_valid` then throws a `TypeError`, whose engine-specific message the button shows while dropping the file.
  - A `message` or `error` field holding an object or array: `new Error` shows `[object Object]` for an object, or the elements joined by commas for an array. An empty array gives the empty message, which does not reset the button on close.
- ProjectsPage.DebugMessage: `e.response.data.message` is modelled as a JSON scalar. An object there shows `[object Object]` after the prefix, and an array its joined elements; neither is modelled.
- `MilestoneUpload.UploadButton.HandleFileSelect`: the ref-driven click that opens the file picker is not modelled.
- `console.log`, `alert`, routing and rendering are kept only as returned values or a recorded route.

## Findings

| source | as written | input that shows it | evidently intended | confidence | as-written member | corrected member |
|---|---|---|---|---|---|---|
| src/app/investments/mockData.ts:86-87 | `cumulativeInvested` is declared once outside the month loop and never reset. Each month's pass adds every investment made by that date again, so the invested series sums all earlier months' totals. | The fixture of four investments at month 2 (2025-03-01) gives 335000 invested instead of 210000, and the last point gives 2425000 instead of 560000. | Each point shows the amount invested by that date. The hardcoded series in src/app/investments/page.tsx:148-156 agrees with this from 2025-02-01 on (125000, 210000, 410000, 560000). It differs on 2025-01-01, where it shows 125000 although the first investment is dated 2025-01-15. The investments page does not call `getPortfolioHistory`; it hardcodes its series. | not executed | InvestmentsMock.GetPortfolioHistory, InvestmentsMock.PortfolioHistoryOvercounts | InvestmentsMock.GetPortfolioHistoryCorrected, InvestmentsMock.FixtureHistoryEnds |
