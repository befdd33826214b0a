# Wholesale storefront: verified model of the client-side state logic

This project models the client-side logic of a wholesale storefront
single-page app. The app shows a fixed product catalog. It can filter the
catalog by category and by free text. A "smart search" maps a
natural-language query onto catalog products through an external completion
service. The cart is an ordered list of entries keyed by product id.

The model covers four pieces:

- **Cart store** (`App.Storefront`, `AppCart`). Add-to-cart increments an
  existing entry or appends a new one with quantity 1. A quantity change adds
  a delta, clamps at 0 and drops entries that reach 0. Checkout empties the
  cart and closes the drawer. The navbar badge is the quantity sum. The pure
  transforms applied by the cart setters are functions in `AppCart`. The class
  holds the view state as fields; each handler assigns the transform's result.
  The invariant `AppCart.Valid`: ids are unique and every quantity is at
  least 1.
- **Filter pipeline** (`AppFilter`). The base list is the smart result when
  there is one, otherwise the catalog. The category filter is applied next.
  The case-insensitive substring filter on name or brand follows, but only
  for a non-empty query with no smart result. The pipeline is proved equal to
  a single order-preserving filter by an independent reference predicate.
  The rule that decides whether smart search runs is here too.
- **Smart-search post-processing** (`GeminiService`). It builds the
  `name (category)` context string. It maps returned names back onto catalog
  products by exact name. The completion call's outcome is a `Reply`, with four shapes:
  - `Failed`: the request rejects. The call at services/geminiService.ts:10
    is outside the `try`, so the returned promise rejects as well.
  - `Unusable`: the result is `[]`, in either of two cases. The text may not
    parse, so `JSON.parse` throws (services/geminiService.ts:25). Or it may
    parse to `null`, a number, a boolean or an object, so `.includes` throws
    (services/geminiService.ts:26). Both throws happen inside the `try`.
  - `NameList`: the text parses to an array of names. A product is kept when
    its name is one of them.
  - `NameText`: the text parses to a JSON string. `includes` is then a
    substring test, so a product is kept when its name occurs in the string.
- **Derived display values** (`CartDrawer`, `ProductCard`). These are the
  subtotal, line amounts, the drawer's −/+ requests and show/hide rules, the
  stock label, the badge tone and the Quick Add enable rule.

`Builtins` models the JavaScript built-ins this code uses, each with a
contract or a reference definition, and lemmas about them:
`filter`, `reduce`, `join`, `includes`, ASCII `toLowerCase`, `length`
counted in UTF-16 code units, and `${n}` for non-negative integers. `Constants` holds a three-product excerpt
of the catalog. `FixtureExamples` states and proves the model's results on it.

Smart search is triggered by the untrimmed `searchQuery.length > 5`
(App.tsx:55). `ShouldSmartSearch` therefore tests `Utf16Length(searchQuery) > 5`,
and spaces count. JavaScript's `length` counts UTF-16 code units, so a
character above U+FFFF, such as an emoji, counts twice.

A failed request leaves `smartResults` as it was. The `await` at App.tsx:57
throws, so App.tsx:58-59 never run. `SettledSmartResults` takes the previous
value and returns it for a `Failed` reply.

An empty smart result still counts as a result. In JavaScript `[]` is
truthy, so `smartResults || PRODUCTS` keeps it and `!smartResults` is false.
The model represents smart results as `Option<seq<Product>>`, and `Some([])`
shows nothing and turns the substring filter off.

## Model

| member | source | states |
|---|---|---|
| Builtins.Filter | App.tsx:39 | `filter` returns no more elements than it was given, every element it returns is from the input and satisfies the predicate, and every input element that satisfies it is returned |
| Builtins.FilterIsSubsequence | App.tsx:36-49 | a filtered list is a subsequence of its input, so the input order is kept |
| Builtins.FilterCount | App.tsx:39 | filtering keeps each satisfying element exactly as many times as the input has it, and no copies of other elements |
| Builtins.FilterFusion | App.tsx:38-47 | two filters applied one after the other equal one filter by the conjunction of their predicates |
| Builtins.SumReduceIsSum | components/CartDrawer.tsx:14 | the left-to-right `reduce` with an adding reducer equals the start value plus the reference sum |
| Builtins.SumConcat | components/CartDrawer.tsx:14 | the sum over a concatenation is the sum of the two sums |
| Builtins.JoinSnoc | services/geminiService.ts:8 | `join` puts one separator between consecutive pieces: appending a piece adds the separator and the piece, or gives the piece alone when there was none |
| Builtins.IncludesIsOccurs | App.tsx:44-45 | the left-to-right `includes` scan answers true exactly when the substring occurs at some position |
| Builtins.Includes | App.tsx:44-45 | the empty string is included in every string, and an included string is no longer than the one it is included in |
| Builtins.Utf16Length | App.tsx:55 | a string's JavaScript length lies between its number of characters and twice that number |
| Builtins.Utf16LengthCounts | App.tsx:55 | a string's JavaScript length is its number of characters plus its number of astral characters (those above U+FFFF) |
| Builtins.Utf16LengthBmp | App.tsx:55 | on text within the Basic Multilingual Plane, the JavaScript length is the number of characters |
| Builtins.ToLower | App.tsx:44-45 | lower-casing keeps the length, leaves no ASCII upper-case letter, keeps every other character and maps each upper-case letter to its lower-case letter |
| Builtins.DecimalString | components/ProductCard.tsx:69 | a number's decimal text is non-empty, all digits, and has no leading zero unless the number is 0 |
| Builtins.DecimalRoundTrip | components/ProductCard.tsx:69 | reading the decimal text back gives the number |
| Types.CategoryLabelInjective | types.ts:2-16 | the thirteen categories have pairwise distinct labels |
| GeminiService.ProductListContextSnoc | services/geminiService.ts:8 | the context lists each product as `name (category)` in catalog order, with `, ` between entries |
| GeminiService.ProductListContext | services/geminiService.ts:8 | an empty catalog gives an empty context, and a catalog of one product gives that product's `name (category)` entry alone |
| GeminiService.SelectByNames | services/geminiService.ts:26 | for an array reply, exactly the catalog products whose name is in the array are kept |
| GeminiService.SelectByText | services/geminiService.ts:26 | for a JSON-string reply, exactly the catalog products whose name is a substring of the string are kept |
| GeminiService.Recommend | services/geminiService.ts:7-31 | the outcome is an error exactly when the request failed; an unusable reply gives `[]`; every product returned is a catalog product; for an array reply a product is returned exactly when its name is in the array; for a string reply, exactly when its name occurs in the string |
| GeminiService.RecommendTextIsSubstringMatch | services/geminiService.ts:25-26 | a JSON-string reply selects, in catalog order, exactly the products whose full name occurs in the string |
| GeminiService.RecommendKeepsCatalogOrder | services/geminiService.ts:26 | the result follows catalog order (it is a subsequence of the catalog) |
| GeminiService.RecommendCount | services/geminiService.ts:26 | each catalog product appears as often as in the catalog if its name was returned and not at all otherwise, so a repeated name duplicates nothing |
| GeminiService.RecommendIgnoresNameOrder | services/geminiService.ts:26 | only the set of returned names matters, not their order or repetition |
| GeminiService.RecommendDropsUnknownNames | services/geminiService.ts:26 | removing from the reply every name that matches no catalog name leaves the result unchanged |
| ProductCard.StockLabel | components/ProductCard.tsx:69 | the label is "Out of Stock" exactly when stock ≤ 0; otherwise it is decimal digits with no leading zero that read back as the stock, followed by " left", which is the one canonical text `${stock} left` |
| ProductCard.StockToneOf | components/ProductCard.tsx:64-68 | the badge tone is healthy exactly when stock > 20 |
| ProductCard.QuickAddDisabled | components/ProductCard.tsx:75 | the button is disabled exactly when the stock label reads "Out of Stock" |
| ProductCard.QuickAdd | components/ProductCard.tsx:75-76 | a Quick Add click emits a request exactly when stock > 0, and the request carries the card's product unchanged |
| ProductCard.CardRulesAgree | components/ProductCard.tsx:64-75 | the healthy tone (stock > 20) never appears with "Out of Stock" or a disabled button; the button is disabled exactly when the label reads "Out of Stock"; "Out of Stock" always has the low tone |
| CartDrawer.LineTotal | components/CartDrawer.tsx:50 | a line's amount is 0 for quantity 0, and at least the unit price for a non-negative price and a quantity of at least 1 |
| CartDrawer.Subtotal | components/CartDrawer.tsx:14 | the subtotal is the sum over the entries of price × quantity, and 0 for an empty cart |
| CartDrawer.SubtotalConcat | components/CartDrawer.tsx:14 | the subtotal of two carts put together is the sum of their subtotals |
| CartDrawer.Render | components/CartDrawer.tsx:16-94 | nothing is shown when the drawer is closed; the header count is the number of entries; there is one line per entry showing price × quantity, with a minus request (id, −1) and a plus request (id, +1) for that entry's own id; the footer is shown exactly when the cart is non-empty, and its Total equals its Subtotal equals the reference sum |
| CartDrawer.TotalIsSumOfLines | components/CartDrawer.tsx:50-85 | the footer's Total equals the sum of the amounts printed on the lines |
| AppFilter.FilteredProducts | App.tsx:35-50 | every displayed product comes from the base list (the smart result if present, else the catalog); with a category selected, every displayed product has exactly that category |
| AppFilter.MatchesQueryIsOccurs | App.tsx:43-46 | the free-text test holds exactly when the lower-cased query occurs in the lower-cased name or in the lower-cased brand |
| AppFilter.FilteredIsOneFilter | App.tsx:35-50 | the pipeline equals one filter of the base list by the reference predicate: category matches if one is selected, and the query occurs in the name or brand unless the query is empty or a smart result is present |
| AppFilter.FilteredSelectsExactly | App.tsx:36-47 | the display is a subsequence of the base list; each base product appears exactly as often as in the base when it passes the category and query rules and not at all otherwise, so no matching product of the base is dropped |
| AppFilter.SmartResultsOverrideQuery | App.tsx:36-42 | with a smart result present, neither the catalog nor the query changes what is displayed |
| AppFilter.QueryIsCaseInsensitive | App.tsx:44-45 | the displayed list is the same for a query and its lower-cased form |
| AppFilter.MatchesQuery | App.tsx:43-46 | an empty query matches every product; a matching query is no longer than the name or the brand |
| AppFilter.BaseList | App.tsx:36 | with no smart result the base list is the catalog; when every smart result is a catalog product, so is every base product |
| AppFilter.ShouldSmartSearch | App.tsx:55 | smart search is triggered exactly when the number of characters plus the number of astral characters (the UTF-16 code units) exceeds 5, so every query of more than 5 characters triggers it and none of fewer than 3 does |
| AppFilter.SettledSmartResults | App.tsx:54-64 | a query not long enough clears the smart results; for a long query a failed request keeps the previous value, and any other reply gives exactly the recommendations of `GeminiService.Recommend` (`[]` for an unusable reply); results stay catalog products |
| AppFilter.LongQueryShowsRecommendations | App.tsx:35-64 | after a long query gets a usable reply, the display is the recommendations, narrowed to the selected category and not filtered by the query text |
| AppFilter.ShortQueryUsesSubstringFilter | App.tsx:42-63 | for a query whose JavaScript length (UTF-16 code units) is at most 5, whatever the service replies, the display is the category-and-substring filter of the full catalog |
| AppCart.AddToCart | App.tsx:78-89 | adding keeps the invariant (unique ids, quantities ≥ 1); the length is kept when the id was present and grows by one otherwise; the product's id is in the cart afterwards |
| AppCart.AddExisting | App.tsx:80-84 | adding a product whose id is present raises that entry's quantity by 1 and leaves the length and every other entry unchanged |
| AppCart.AddNew | App.tsx:86 | adding a product whose id is absent appends exactly one entry, with quantity 1, at the end |
| AppCart.AddTwice | App.tsx:78-89 | adding the same new product twice gives one entry of quantity 2, not two entries |
| AppCart.UpdateQuantity | App.tsx:91-101 | after a quantity change no entry has a quantity below 1 (none negative, none zero but present), and the cart never grows |
| AppCart.UpdateUnknownId | App.tsx:91-101 | a change for an id not in the cart leaves the cart unchanged |
| AppCart.UpdateAt | App.tsx:93-99 | the target entry keeps its place with quantity q + delta, or is removed when q + delta ≤ 0; every other entry keeps its relative order |
| AppCart.UpdatePreservesValid | App.tsx:91-101 | a quantity change keeps ids unique and quantities ≥ 1 |
| AppCart.UpdateZeroDelta | App.tsx:91-101 | a delta of 0 is a no-op |
| AppCart.UpdateRemovesEntry | App.tsx:95-99 | a delta of −quantity or less removes the entry entirely, and the cart shrinks by one |
| AppCart.AddThenZeroDelta | App.tsx:78-101 | adding a product and then requesting a zero change for its id leaves the cart as the add left it |
| AppCart.CartCount | App.tsx:112 | the badge count, computed by `reduce`, equals the sum of all quantities |
| AppCart.CartCountAtLeastEntries | App.tsx:112 | in a valid cart the badge count is at least the number of entries shown in the drawer header |
| AppCart.AddRaisesCount | App.tsx:78-89 | every add raises the badge count by exactly 1 |
| AppCart.UpdateMovesCount | App.tsx:91-101 | a quantity change moves the badge count from q to max(0, q + delta) for the target entry |
| App.Storefront.constructor | App.tsx:25-31 | the initial state: no category, empty query, no smart results, empty cart, closed drawer |
| App.Storefront.Displayed | App.tsx:35-50 | the displayed products are always catalog products |
| App.Storefront.CartCount | App.tsx:112 | the navbar badge is never below the number of entries |
| App.Storefront.AddToCart | App.tsx:78-89 | the cart becomes the add transform of the old cart, the badge rises by 1, the drawer is not opened, and the filter state is unchanged |
| App.Storefront.QuickAddClick | components/ProductCard.tsx:75-76 | a card click adds the product when its stock is positive and leaves the cart unchanged otherwise |
| App.Storefront.UpdateQuantity | App.tsx:91-101 | the cart becomes the update transform of the old cart, keeping the invariant; nothing else changes |
| App.Storefront.Checkout | App.tsx:103-107 | the cart is empty and the drawer is closed; the filter state is unchanged |
| App.Storefront.OpenCart | App.tsx:113 | the drawer opens; nothing else changes |
| App.Storefront.CloseCart | App.tsx:304 | the drawer closes; nothing else changes |
| App.Storefront.SetSearchQuery | App.tsx:114 | the query is set; nothing else changes |
| App.Storefront.SelectCategory | App.tsx:125 | the category filter is set or cleared; nothing else changes |
| App.Storefront.SmartSearchSettled | App.tsx:54-64 | the smart results become the settled value of the old ones: cleared for a short query, unchanged after a failed request, exactly the recommendations for any other reply to a long query; the cart, the drawer, the category and the query are unchanged |
| App.Storefront.HomeClick | App.tsx:115-119 | category cleared, query empty, smart results cleared, so the whole catalog is displayed; the cart is unchanged |
| App.Storefront.MobileHomeClick | App.tsx:313 | category cleared and query empty; smart results are left as they were |
| FixtureExamples.BeveragesShowsCola | constants.tsx:16-42 | on the milk/cola/oil fixture, selecting Beverages shows exactly the cola |
| FixtureExamples.SmartSearchDropsUnknownName | services/geminiService.ts:26 | a reply naming the cola and "Nonexistent Item" selects exactly the cola |
| FixtureExamples.ShoppingSession | App.tsx:78-107 | two adds of one product and a Quick Add of another give entries of quantity 2 and 1; a change of −2 removes the first entry; the badge is then 1; checkout empties the cart |
| FixtureExamples.EmojiQueryRunsSmartSearch | App.tsx:55 | three emoji are three characters, but as six UTF-16 code units they trigger smart search |

## Left out

- JSX markup, styling, icons, the hero, brand and chart sections, the navbar and sidebar rendering, and the section header texts. These are presentational.
- The completion-service calls, the business-insight request and its fallback message. These are asynchronous network calls. The smart-search outcome is a parameter of type `GeminiService.Reply`. For an array reply the model keeps only its string elements, because no other element can equal a product name.
- The 800 ms debounce, the cancelled timers, the `isSearching` flag and the race between a late reply and a newer query. These depend on timing. `SmartSearchSettled` models only what happens when a timer fires.
- App.Storefront.SmartSearchSettled: the `isSearching` flag is not modelled. A failed request leaves it set, and the scroll to the top does not happen.
- `alert`, `scrollTo` and `console.error`. These are browser side effects.
- Builtins.ToLower: lower-cases ASCII letters only, because the Unicode and locale case mapping of `toLowerCase` is not modelled.
- `toLocaleString` on the card price is not modelled, because it depends on the locale.
- Builtins.DecimalString: covers non-negative integers only. It does not model exponent notation at 1e21 and above, or fractional stock values.
- Prices, stock and quantities are unbounded integers. JavaScript's double-precision rounding above 2^53 is not modelled.
- The full catalog and the chart's mock data. A three-product fixture is used instead.
- The mobile bar's badge (shown when the cart is non-empty) is not modelled separately. It repeats the navbar's quantity sum.
