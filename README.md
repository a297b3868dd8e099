# Listing-page core of a real-estate front-end, in Dafny

The application lists rental properties that are stored in a hosted database. It shows them
nine to a page, with a client-side filter and Previous/Next buttons, and it shows each one as
a card. This project models the small amount of exact logic under that presentation:

- the `useProperties` hook (`hook.dfy`, `paging.dfy`, `photos.dfy`, `records.dfy`):
  - it turns a page number into an inclusive row range and a row count into a page count;
  - it parses the `|`-delimited `images` column into `fotos`;
  - it holds the listing state that `fetchProperties`, `fetchPropertyById`, `nextPage` and
    `prevPage` update. This is the class `PropertiesHook.ListingState`, whose methods follow
    the source's setter calls in order;
- the property card (`card.dfy`): `extractInteger`, the currency label, the cover image and
  the expenses-line condition;
- the listing page (`listing.dfy`): the filter predicate applied to the loaded page and the
  choice between skeleton, error, "No properties found." and cards;
- the pagination buttons (`pagination.dfy`): when Previous and Next are disabled, and how that
  fits the hook's bound checks.

Calls to the hosted database become inputs. Each query's reply is an
`Outcome<T> = Ok(value) | Failed(message)`. `FetchProperties` takes the replies of the count
query and the row query. It returns the row range it asked for, or `None` when the count
query failed and so the row query was never sent. `Paging.ServedRows` describes what a service
holding a fixed table returns for a range. The lemmas about whole tables rest on it.

`Seqs` holds the generic pieces that both `Array.filter` call sites share: filter,
subsequence and substring. `Wrappers` holds `Option`, which stands for `null`/`undefined`.

Behaviour of the code that is easy to miss:
- a successful fetch does not clear an earlier error;
- with no rows, `totalPages` is 0 and Next stays enabled;
- the hook keeps a photo when it *contains* `"http"`. The detail page
  (`src/app/properties/[id]/page.js:46`) re-parses `images` with `startsWith("http")`;
- the hook starts with `totalPages = 1` although `totalCount = 0`.

## Model

| member | source | states |
|---|---|---|
| Seqs.Filter | src/app/properties/page.js:28 | The result is no longer than the input. Each of its elements is in the input and passes the predicate. Each passing value occurs in the result as often as in the input, and a failing value does not occur |
| Seqs.FilterIsSubsequence | src/app/properties/page.js:28 | The filtered sequence is a subsequence of the input, in the same order |
| Seqs.FilterIdempotent | src/app/properties/page.js:28-35 | Filtering twice with one predicate equals filtering once |
| Seqs.FilterMonotone | src/app/properties/page.js:28-35 | A stricter predicate keeps a subsequence of what a looser one keeps |
| Paging.RangeFor | src/app/hooks/useProperties.js:18-20 | The range `from = (p-1)*9 .. from+8` holds exactly 9 offsets and starts at 0 or later for `p >= 1` |
| Paging.ConsecutiveRangesAdjacent | src/app/hooks/useProperties.js:18-20 | Page `p+1`'s range starts right after page `p`'s range ends |
| Paging.RowOnExactlyOnePage | src/app/hooks/useProperties.js:18-20 | Row offset `i` lies in page `p`'s range if and only if `p = i/9 + 1`, so the ranges are disjoint and cover every offset |
| Paging.TotalPages | src/app/hooks/useProperties.js:30 | `ceil(count/9)`. It is 0 exactly when the count is 0, and for `count > 0`, `(n-1)*9 < count <= n*9` |
| Paging.TotalPagesIsLeast | src/app/hooks/useProperties.js:30 | No smaller number of 9-row pages holds `count` rows |
| Paging.ServedRows | src/app/hooks/useProperties.js:63 | The service's reply to `.range(from, to)` has at most `to-from+1` rows |
| Paging.PagesCoverTable | src/app/hooks/useProperties.js:18-30 | Requesting pages `1..totalPages` in turn returns every row of the table exactly once, in order |
| Paging.PageHasRowsIffInBounds | src/app/hooks/useProperties.js:18-30 | A page returns rows if and only if its number is at most `totalPages` |
| Paging.NextPageOf | src/app/hooks/useProperties.js:137-139 | The page moves up by one exactly when `page < totalPages`, and otherwise stays. Within `1..totalPages` it stays within `1..totalPages` |
| Paging.PrevPageOf | src/app/hooks/useProperties.js:141-143 | The page moves down by one exactly when `page > 1`, and otherwise stays. From a page `>= 1` it stays `>= 1` and does not increase |
| Photos.Split | src/app/hooks/useProperties.js:69 | `split("\|")` gives one more piece than there are separators, and no piece contains a separator |
| Photos.JoinSplit | src/app/hooks/useProperties.js:69 | Joining the pieces with `\|` gives back the original string |
| Photos.SplitJoin | src/app/hooks/useProperties.js:69 | Splitting a join of separator-free pieces gives back the pieces |
| Photos.ParsePhotos | src/app/hooks/useProperties.js:67-70 | A missing or empty `images` gives no photos. Every photo contains "http" and no `\|`. There are at most (separators + 1) photos |
| Photos.IsPhotoUrl | src/app/hooks/useProperties.js:69 | `url.includes("http")`. A piece that passes has at least the four characters of "http" |
| Photos.PhotosArePieces | src/app/hooks/useProperties.js:69 | The photos are, in their original order, exactly the pieces that contain "http", each as often as it occurs among the pieces |
| Photos.ParseExample | src/app/hooks/useProperties.js:67-70 | `"http://a\|http://b\|notaurl"` parses to `["http://a", "http://b"]` |
| Records.WithPhotos | src/app/hooks/useProperties.js:122-125 | The record keeps the row unchanged and adds `fotos` parsed from its own `images`. Each of these contains "http" |
| Records.WithPhotosAll | src/app/hooks/useProperties.js:67-72 | One record per fetched row, in the same order. Each keeps its row and has its parsed photos |
| PropertiesHook.ListingState.constructor | src/app/hooks/useProperties.js:5-11 | The initial state: no records, no detail record, not loading, no error, page 1, 1 page, count 0 |
| PropertiesHook.ListingState.FetchProperties | src/app/hooks/useProperties.js:14-80 | Every path ends with `loading` false, keeps the page at 1 or more, and leaves `page` and `property` alone. If the count fails, only `error` changes (with the prefix). If the rows fail, count and pages are updated but `properties` is unchanged. On success, `properties` is the rows with photos and `error` is left as it was |
| PropertiesHook.ListingState.FetchPropertyById | src/app/hooks/useProperties.js:83-135 | On success it returns and stores the record with photos. On failure it returns `None`, keeps `property`, and sets the prefixed error. `loading` ends false |
| PropertiesHook.ListingState.NextPage | src/app/hooks/useProperties.js:137-139 | `page` becomes `NextPageOf(page, totalPages)`, and the invariant (`page >= 1`) is preserved |
| PropertiesHook.ListingState.PrevPage | src/app/hooks/useProperties.js:141-143 | `page` becomes `PrevPageOf(page)`, and the invariant (`page >= 1`) is preserved |
| PropertiesHook.ListingState.SetProperty | src/app/hooks/useProperties.js:159 | The exported setter replaces `property` and nothing else |
| Card.ParseDecimal | src/app/components/PropertyCard.js:12 | `parseInt(ds, 10)` of a digit string. The value is below `10^|ds|` |
| Card.FirstDigit | src/app/components/PropertyCard.js:11 | The index of the first digit: no digit comes before it, and it is a digit unless it is the end |
| Card.DigitRunEnd | src/app/components/PropertyCard.js:11 | The end of the maximal digit run: every character in the run is a digit, and the next one is not |
| Card.ExtractInteger | src/app/components/PropertyCard.js:10-13 | The result is a natural number. It is 0 for a null text or a text without digits |
| Card.ExtractFirstRun | src/app/components/PropertyCard.js:11-12 | For `pre + ds + post` with no digit in `pre`, `ds` all digits, and `post` not starting with a digit, the result is the base-10 value of `ds` |
| Card.LeadingZeroIgnored | src/app/components/PropertyCard.js:12 | A leading zero does not change the parsed value |
| Card.ParseDecimalDigits | src/app/components/PropertyCard.js:12 | Parsing the canonical decimal digits of `n` gives `n` |
| Card.ExtractWrittenNumber | src/app/components/PropertyCard.js:10-13 | Any number written between digit-free surroundings is extracted exactly |
| Card.MinusSignIgnored | src/app/components/PropertyCard.js:11 | A leading `-` does not change the result |
| Card.DecimalPointStopsMatch | src/app/components/PropertyCard.js:11 | `"1.200"` gives 1 |
| Card.CurrencySymbol | src/app/components/PropertyCard.js:24 | The result is `"$"` if and only if the currency is `"$"`, and `"USD"` otherwise, null included |
| Card.ImageSource | src/app/components/PropertyCard.js:39 | The result is never empty. It is the placeholder or the first photo |
| Card.ImageOfParsedPhotos | src/app/components/PropertyCard.js:39 | For a record built by the hook, the image is the first photo when one exists, and the placeholder if and only if there is no photo |
| Card.ParsePositiveIffNonZeroDigit | src/app/components/PropertyCard.js:17 | A digit string parses to a positive value if and only if one of its digits is not `0` |
| Card.ShowsExpensesIff | src/app/components/PropertyCard.js:61 | The expenses line is shown if and only if the first digit run of the expenses text has a non-zero digit |
| Card.ShowsExpenses | src/app/components/PropertyCard.js:61 | `expensesAmount > 0`. It is shown only for a present text that has a digit |
| Card.CardFor | src/app/components/PropertyCard.js:16-24 | Expenses, bedrooms, bathrooms, area and age are `extractInteger` of their own columns. The expenses line is shown if and only if the extracted expenses are positive. The image is `ImageSource(fotos)` (the placeholder or the first photo). The symbol is `"$"` exactly for the `"$"` currency |
| ListingPage.Lower | src/app/properties/page.js:30 | ASCII lower-casing keeps the length and lowers each character |
| ListingPage.Keep | src/app/properties/page.js:29-34 | The filter predicate: the lower-case title contains the lower-case term, the site filter is "all" or equal, and the price is within the inclusive bounds. A kept record implies a non-empty price range and a term no longer than the title |
| ListingPage.FilteredProperties | src/app/properties/page.js:28-35 | A subsequence of the loaded records. A record is in it if and only if it is loaded and passes `Keep`. A passing record occurs as often as it was loaded |
| ListingPage.FilterTwiceSameAsOnce | src/app/properties/page.js:28-35 | Filtering is idempotent |
| ListingPage.NarrowingFiltersSubsequence | src/app/properties/page.js:30-33 | Stricter settings (a narrower price range, a term containing the other term, a specific site in place of "all") keep a subsequence |
| ListingPage.NarrowPriceRange | src/app/properties/page.js:32-33 | Narrowing the price range keeps a subsequence |
| ListingPage.ExtendSearchTerm | src/app/properties/page.js:30 | Extending the search term keeps a subsequence |
| ListingPage.ChooseSite | src/app/properties/page.js:31 | Switching from "all" to one site keeps a subsequence |
| ListingPage.InitialSettingsKeepPriceRange | src/app/properties/page.js:14-16 | With the initial settings, exactly the records priced in `[0, 1000000]` are kept |
| ListingPage.ErrorShown | src/app/properties/page.js:54 | JavaScript truthiness of `error`: shown only when it is set (and not empty) |
| ListingPage.Render | src/app/properties/page.js:52-66 | Skeleton if and only if loading with no records. Otherwise the error if one is set. Otherwise "No properties found." if and only if the filtered list is empty. Otherwise one card per filtered record |
| ListingPage.FetchAndRender | src/app/properties/page.js:52-56 | After the effect's fetch, the page shows the error if any fetch so far failed, successful later ones included. With no error and both queries succeeding, it shows the new records |
| Pagination.PreviousDisabled | src/app/components/Pagination.js:5 | `page === 1`. When Previous is disabled, `prevPage` would not change the page anyway |
| Pagination.NextDisabled | src/app/components/Pagination.js:11 | `page === totalPages`. When Next is disabled, `nextPage` would not change the page anyway |
| Pagination.PreviousEnabledIffMoves | src/app/components/Pagination.js:5 | From a page `>= 1`, Previous is enabled if and only if `prevPage` changes the page |
| Pagination.NextEnabledIffMoves | src/app/components/Pagination.js:11 | Within `1..totalPages`, Next is enabled if and only if `nextPage` changes the page |
| Pagination.NoRowsNextEnabledButInert | src/app/components/Pagination.js:11 | With no rows, `totalPages` is 0. Next is enabled on page 1, but pressing it leaves page 1 |
| Pagination.NextPressesStopAtLastPage | src/app/components/Pagination.js:11 | Any number of Next presses from a page in bounds ends on `min(page + presses, totalPages)`, never past the last page |

## Left out

- Calls to the hosted database and auth service are replaced by their replies (`Outcome`). The model does not say which rows or which count the service returns. `Paging.ServedRows` describes a service holding a fixed table.
- The row query has no ordering clause, so the service may return rows in any order. `Paging.PagesCoverTable` assumes the table order stays the same between page requests.
- Authentication glue: the header, the login and register pages, and the "not logged in" check on the listing page. That check tests whether a promise is truthy, so it never redirects.
- The property detail page `src/app/properties/[id]/page.js` is not part of this model. Neither are the filter panel, the skeleton, the layout, the footer or the event card. They are markup only.
- React effect and render timing. The model also leaves out fetches that overlap when the page changes quickly. Each handler runs to completion, so renders that happen between its awaits (with `loading` true, or with the count updated but the rows still pending) are not modelled. Only the final state of each handler is stated.
- `PropertiesHook.ListingState.FetchProperties`: takes the count as a natural number. In the source a `null` count does not throw: `totalCount` becomes `null` and `Math.ceil(null / 9)` gives `totalPages = 0`, and the row query still runs. That case is not modelled. A `null` row list without an error throws a `TypeError` when it is mapped. The source catches it with its own message, and that case is not modelled either.
- `PropertiesHook.ListingState.FetchPropertyById`: the reply is not tied to the requested `id`. The model does not promise that the returned record's `id` equals the one asked for, because matching the id is the service's job.
- `title` and `site` are modelled as non-null strings. In the source a `null` title makes `property.title.toLowerCase()` throw while the listing page renders, and nothing catches it. That crash is not modelled.
- `Paging.TotalPages`: uses exact integer ceiling. The source divides in floating point, which gives the same result for counts below 2^53.
- `Card.ExtractInteger`: returns an unbounded natural number. `parseInt` loses precision above 2^53.
- `price_amount` is modelled as the integer that the filter compares. JavaScript's coercion of a text price is not modelled. The card's price line (`extractInteger` of the price, then `toLocaleString`) is not modelled either.
- `toLocaleString` formatting of the price and the expenses is not modelled.
- `ListingPage.Lower`: lowers only ASCII letters, not full Unicode `toLowerCase`.
