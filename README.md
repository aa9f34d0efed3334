# Retail inventory front-end: cart, ledger, classifiers and forms

A Dafny model of the logic inside the screens of a small retail inventory front-end. The
screens are React components; the model keeps this logic and leaves the rendering out:

- **Sales dashboard point of sale**:
  - a point-of-sale cart of `(productId, name, quantity, price?)` lines;
  - adding caps each quantity at the stock in an in-memory inventory map;
  - removing drops the product's lines;
  - completing a sale takes the cart off the stored ledger of the employee's store, clamped
    at 0, makes a receipt with its total, and empties the cart.
- **Products dashboard inventory editor**:
  - the same ledger, seeded from the catalog and the stored values;
  - edited one key at a time: set, increment, decrement clamped at 0, typed input floored and
    clamped;
  - saved under `inventario_<storeId>`.
- **Paradox chart**: each store is classified as overstock, lost sale or star from its sales
  and inventory, and the stores are split into three datasets.
- **Coverage tables**, by business unit and by store: days of coverage are bucketed into the
  overstock, lost-sale and optimal tones, and very large values are shown capped.
- **Forms**:
  - product registration, employee registration and login;
  - in all three, the checks fill an error record and the submit returns early when the form is
    invalid; required text fields are checked after trimming, passwords only for being empty,
    and the employee form's store choice for being falsy;
  - the two registration forms build a payload of the trimmed values and reset the form on
    success;
  - the employee password is replaced by the lowercase hexadecimal text of its SHA-256 digest;
  - the login form goes no further than validation.

Modules, following the program's structure:

- `Wrappers`: `Option`.
- `Catalog`: product and employee records, and identifiers and their object-key coercion.
- `Ledger`: the inventory map, the browser's key-value storage and the seeding.
- `Cart`: the cart as values: add, remove, total, and the clamped decrement with its closed
  form.
- `SalesScreen`: the sales dashboard class and the sale loop.
- `ProductsScreen`: the inventory editor class.
- `ParadoxChart`, `Coverage`: the classifiers.
- `Text`: the no-argument `String.prototype.trim` of ECMAScript.
- `ProductRegistration`, `EmployeeRegistration`, `Login`: the three form classes.

State that the source updates in place is modelled as Dafny classes, each with the component's
state as fields:

- the inventory map and the cart;
- the storage;
- the form fields and the error record.

Expression code is modelled as functions with lemmas.

The error records are string-keyed objects in the source. Here they are datatypes with one
`Option<string>` per key that `validate` can set. `None` means the key is absent and `Some(m)`
means it holds message `m`. "The record is empty" becomes "equals `NoErrors`".

The cart reserves nothing: adding and removing only read the inventory map, and stock is
checked only when adding. The model proves that adding and removing leave the map unchanged.

## Model

| member | source | states |
|---|---|---|
| Catalog.Decimal | src/presentation/dashboard/SalesDashboard.tsx:101 | The decimal text a numeric id takes as an object key: at least one digit, only digits, and no leading zero from 10 upwards. |
| Catalog.DecimalReadsBack | src/presentation/dashboard/SalesDashboard.tsx:101 | Reading the decimal text of a number back, digit by digit from the left, gives the number. |
| Catalog.KeyOf | src/presentation/dashboard/SalesDashboard.tsx:101 | The object key of an id (`map[id]`, `localInv[item.productId]` at :163): a text id is itself; a numeric id's key is never empty and starts with a minus sign exactly when the number is negative. |
| Catalog.KeyReadsBack | src/presentation/dashboard/SalesDashboard.tsx:163 | A numeric id's key, read back with its optional minus sign, gives the number. |
| Catalog.NumericKeysDistinct | src/presentation/dashboard/SalesDashboard.tsx:163 | Two numeric ids with the same object key are the same number. |
| Catalog.NumberAndTextShareKey | src/presentation/dashboard/SalesDashboard.tsx:163 | A numeric id and the text of its digits land on the same object key. |
| Catalog.IdOf | src/presentation/dashboard/SalesDashboard.tsx:118 | `p.id ?? p.nombreModelo`: the id when present (0 and `''` included), the model name only when the id is missing. |
| Catalog.SalePrice | src/presentation/dashboard/SalesDashboard.tsx:133 | The new line's price: the first SKU's price for an array (none for an empty array), the single SKU's price otherwise, and none without SKUs. |
| Catalog.StoreIdOf | src/presentation/dashboard/SalesDashboard.tsx:53-62 | `parsed.tienda ?? parsed.sucursalId ?? null` (also at :89 and :150): `tienda` when present, otherwise `sucursalId`, and null exactly when there is no record or neither field. |
| Ledger.LoadLocal | src/presentation/dashboard/SalesDashboard.tsx:64-71 | `getInventarioLocal` (also read inline at :154-160): empty for a falsy or missing store id; the stored ledger under `inventario_<id>` when there is one; a non-empty result always comes from that entry. |
| Ledger.LocalStorage.SetItem | src/presentation/dashboard/SalesDashboard.tsx:166 | Writing one storage key replaces that entry and keeps every other entry. |
| Ledger.Seed | src/presentation/dashboard/SalesDashboard.tsx:97-103 | The seeding `forEach` gives a map whose keys are exactly the catalog keys (`id ?? nombreModelo`). Each value is the stored value when there is one, otherwise 0. |
| Ledger.SeedAfterSave | src/presentation/dashboard/ProductsDashboard.tsx:61-65 | Persist/load round trip. After a whole map is saved under a known store's key, seeding with the same catalog gives the catalog keys with the saved values (missing ones count as 0). So it gives the saved map itself when that map's keys are the catalog's. |
| Cart.FindIndex | src/presentation/dashboard/SalesDashboard.tsx:122 | `findIndex`: -1 exactly when no line has the id. Otherwise the first line that carries it. |
| Cart.Add | src/presentation/dashboard/SalesDashboard.tsx:117-136 | Stock 0 or less (a missing key counts as 0) leaves the cart unchanged. A product already in the cart gains one unit at its own position, and only while below the stock; every other line is unchanged. A new product is appended with quantity 1 and its first SKU's price, behind the existing lines. |
| Cart.AddQuantity | src/presentation/dashboard/SalesDashboard.tsx:118-130 | On a well-formed cart, the product's quantity after an add is the old one plus 1 when below the stock, and unchanged otherwise. |
| Cart.AddKeepsOthers | src/presentation/dashboard/SalesDashboard.tsx:122-134 | Adding a product leaves the quantity of every other product unchanged. |
| Cart.AddPreservesWellFormed | src/presentation/dashboard/SalesDashboard.tsx:117-136 | Adding keeps the cart invariant: one line per product id, and every quantity between 1 and the stock. |
| Cart.Remove | src/presentation/dashboard/SalesDashboard.tsx:138-140 | `filter`: a line survives exactly when it was in the cart and has another id. No line is added. |
| Cart.RemoveConcat | src/presentation/dashboard/SalesDashboard.tsx:139 | Removal distributes over concatenation, so the surviving lines keep their original order. |
| Cart.RemoveAbsent | src/presentation/dashboard/SalesDashboard.tsx:139 | Removing an id that has no line is a no-op. |
| Cart.RemovePreservesWellFormed | src/presentation/dashboard/SalesDashboard.tsx:138-140 | Removing keeps the cart invariant. |
| Cart.ReplayPreservesWellFormed | src/presentation/dashboard/SalesDashboard.tsx:117-140 | Any sequence of adds and removes, starting from the empty cart or any well-formed one, keeps one line per product and every quantity between 1 and the stock. |
| Cart.Total | src/presentation/dashboard/SalesDashboard.tsx:193 | The receipt total: a single line's total is its amount, and a cart whose lines have non-negative amounts totals at least 0. |
| Cart.TotalConcat | src/presentation/dashboard/SalesDashboard.tsx:193 | The receipt total (a left `reduce`) of two carts laid end to end is the sum of their totals. |
| Cart.TotalOfPricelessIsZero | src/presentation/dashboard/SalesDashboard.tsx:193 | Lines without a truthy price add nothing to the total. |
| Cart.DecrementedAt | src/presentation/dashboard/SalesDashboard.tsx:154-168 | In the ledger after a sale, each key some line touches holds `max(0, old - sold)`, with a missing old value counting as 0. Every other key keeps its stored value. It has exactly the old keys plus the sold keys. |
| Cart.DecrementedStep | src/presentation/dashboard/SalesDashboard.tsx:162-165 | One iteration of the sale `forEach` (`localInv[id] = max(0, (localInv[id] ?? 0) - cantidad)`) takes the closed form for a cart to the closed form for that cart with one more line. |
| Cart.DecrementedLine | src/presentation/dashboard/SalesDashboard.tsx:162-165 | A line whose key no other line shares leaves `max(0, old - cantidad)` under its key. |
| Cart.DecrementedEmpty | src/presentation/dashboard/SalesDashboard.tsx:162 | A sale of an empty cart leaves the stored ledger unchanged. |
| SalesScreen.SalesDashboard.constructor | src/presentation/dashboard/SalesDashboard.tsx:76-77 | The dashboard starts with an empty inventory map (`useState({})`) and an empty cart (`useState([])`), which meets the cart invariant. |
| SalesScreen.SalesDashboard.LoadInventory | src/presentation/dashboard/SalesDashboard.tsx:64-71 | The mount effect reads the stored ledger of the session's store. A falsy or missing store id, nothing stored, or unparseable text all read as empty. It seeds the map with exactly the catalog keys and leaves the cart untouched. |
| SalesScreen.SalesDashboard.AddToCart | src/presentation/dashboard/SalesDashboard.tsx:117-136 | The cart becomes `Add` of the old cart, which keeps the cart invariant. The inventory map is unchanged. |
| SalesScreen.SalesDashboard.RemoveFromCart | src/presentation/dashboard/SalesDashboard.tsx:138-140 | The cart becomes `Remove` of the old cart, which keeps the cart invariant. The inventory map is unchanged. |
| SalesScreen.SalesDashboard.CompleteSale | src/presentation/dashboard/SalesDashboard.tsx:142-201 | With a known store, the re-read stored ledger has the cart taken off (the clamped closed form), and the result is stored under that store's key and becomes the inventory map. With no store, nothing is stored and the map stays. A receipt with the cart's total comes only from a non-empty cart. The cart is empty afterwards in both cases. |
| SalesScreen.ApplySale | src/presentation/dashboard/SalesDashboard.tsx:162-165 | The decrement loop computes exactly the closed form `Decremented`. |
| SalesScreen.SalesSession | src/presentation/dashboard/SalesDashboard.tsx:117-198 | A loaded dashboard driven by any clicks on add and remove, then a sale, keeps the cart invariant throughout and ends with an empty cart. |
| ProductsScreen.TypedQuantity | src/presentation/dashboard/ProductsDashboard.tsx:102 | `max(0, floor(n))` is a non-negative integer: the floor of a non-negative number, and 0 for a negative one. |
| ProductsScreen.ProductsDashboard.constructor | src/presentation/dashboard/ProductsDashboard.tsx:75 | The editor starts with an empty inventory map. |
| ProductsScreen.ProductsDashboard.LoadInventory | src/presentation/dashboard/ProductsDashboard.tsx:51-65 | The seeded map has exactly the catalog keys, each with the stored value or 0. No store id or unparseable stored data counts as empty. |
| ProductsScreen.ProductsDashboard.ChangeInventory | src/presentation/dashboard/ProductsDashboard.tsx:87-89 | Key `k` holds `v`. Every other key is unchanged, and no other key appears or disappears. |
| ProductsScreen.ProductsDashboard.Increment | src/presentation/dashboard/ProductsDashboard.tsx:91-93 | The key holds its old value plus 1, with a missing value counting as 0. Nothing else changes. |
| ProductsScreen.ProductsDashboard.Decrement | src/presentation/dashboard/ProductsDashboard.tsx:95-97 | The key holds `max(0, old - 1)`, so it is never negative. Nothing else changes. |
| ProductsScreen.IncrementThenDecrement | src/presentation/dashboard/ProductsDashboard.tsx:91-97 | For a non-negative quantity, an increment followed by a decrement restores it. The map is the old one when the key was present. |
| ProductsScreen.DecrementAtZero | src/presentation/dashboard/ProductsDashboard.tsx:96 | A decrement at 0 stays at 0. |
| ProductsScreen.ProductsDashboard.InventoryInput | src/presentation/dashboard/ProductsDashboard.tsx:99-103 | Non-numeric input (NaN) leaves the map unchanged. A number stores `max(0, floor(n))` under the key and changes nothing else. |
| ProductsScreen.ProductsDashboard.SaveInventories | src/presentation/dashboard/ProductsDashboard.tsx:105-121 | It saves exactly when the store id is present and truthy. On save, the whole map replaces the entry `inventario_<storeId>` and the other entries stay. Otherwise nothing is written. |
| ProductsScreen.SaveThenReload | src/presentation/dashboard/ProductsDashboard.tsx:61-65 | Saving and then loading again with the same catalog and session gives back the edited map. |
| ParadoxChart.Classify | src/presentation/dashboard/components/ParadoxChart.tsx:37-47 | Overstock exactly when inventory > 6,000,000 and sales < 2,000,000. Lost sale exactly when it is not overstock, sales > 3,000,000 and inventory < 6,000,000. Star exactly in every other case. |
| ParadoxChart.BoundaryIsStar | src/presentation/dashboard/components/ParadoxChart.tsx:41-47 | An inventory of exactly 6,000,000 is always a star. |
| ParadoxChart.ToBubble | src/presentation/dashboard/components/ParadoxChart.tsx:49-56 | A store's bubble carries `x = ventas`, `y = inventario`, `tienda = TIENDA`, and the group the thresholds give it. |
| ParadoxChart.Bubbles | src/presentation/dashboard/components/ParadoxChart.tsx:35-57 | One bubble per store, in input order. Each carries `x = ventas`, `y = inventario`, `tienda = TIENDA` and the store's group. |
| ParadoxChart.Filter | src/presentation/dashboard/components/ParadoxChart.tsx:64 | A dataset holds exactly the bubbles of its group and is no longer than the input. |
| ParadoxChart.FilterConcat | src/presentation/dashboard/components/ParadoxChart.tsx:62-76 | Each dataset keeps the bubbles in input order: filtering distributes over concatenation. |
| ParadoxChart.FiltersCover | src/presentation/dashboard/components/ParadoxChart.tsx:64-74 | As multisets, the three datasets add up to the bubbles: every bubble is in exactly one dataset. |
| ParadoxChart.FiltersPartition | src/presentation/dashboard/components/ParadoxChart.tsx:64-74 | As multisets, the three datasets add up to the bubbles, so their sizes sum to the number of bubbles. |
| ParadoxChart.Render | src/presentation/dashboard/components/ParadoxChart.tsx:29-31 | Missing or empty data gives the no-data message and no datasets. Any other data gives the datasets. |
| ParadoxChart.RenderPartitions | src/presentation/dashboard/components/ParadoxChart.tsx:59-78 | The rendered datasets together have one bubble per store. A store's bubble is in the dataset of its own group and in no other. |
| Coverage.FormatDays | src/presentation/dashboard/components/CoverageByBUTable.tsx:55-73 | Error tone exactly above 90 days, warning tone exactly below 28, success tone exactly from 28 to 90 with both ends included, so there is exactly one bucket. `999+` is shown exactly from 9999 days, otherwise the number itself. (The same rule is at CoverageByStoreTable.tsx:55-73.) |
| Coverage.CappedIsOverstock | src/presentation/dashboard/components/CoverageByStoreTable.tsx:57-66 | A value shown capped is always in the overstock bucket. |
| Coverage.BURows | src/presentation/dashboard/components/CoverageByBUTable.tsx:86-99 | One rendered row per input row, in input order, labelled by `categoria`, with the row's rotation and formatted days. |
| Coverage.StoreRows | src/presentation/dashboard/components/CoverageByStoreTable.tsx:87-99 | One rendered row per input row, in input order, labelled by `tienda`, with the row's rotation and formatted days. |
| Text.Trim | src/presentation/register/ProductRegister.tsx:45-50 | `trim()` never lengthens the text; `TrimIsInfix` and `TrimIdempotent` state what it keeps. |
| Text.LeadingRun | src/presentation/register/ProductRegister.tsx:45 | The leading run is all whitespace and is followed by a character that is not. |
| Text.TrailingRun | src/presentation/register/ProductRegister.tsx:45 | The trailing run is all whitespace and is preceded by a character that is not. |
| Text.TrimIsInfix | src/presentation/register/ProductRegister.tsx:45-50 | `trim()` gives the infix between the leading and the trailing whitespace. It neither starts nor ends with whitespace, and it is empty (falsy) exactly when the string is all whitespace. |
| Text.TrimIdempotent | src/presentation/register/ProductRegister.tsx:62-69 | Trimming a trimmed string changes nothing. |
| ProductRegistration.ErrorsOf | src/presentation/register/ProductRegister.tsx:43-51 | The record `validate` builds: an entry exactly for each blank required field and for a price that is empty, not a number or not positive; no entry for the description; empty exactly when the form is valid. |
| ProductRegistration.Payload | src/presentation/register/ProductRegister.tsx:61-71 | The required texts are trimmed, and none is empty for a valid form. The description is absent (`null`) exactly when it is blank, and otherwise is its trimmed, non-empty text. The price is the number its text reads as. |
| ProductRegistration.ProductRegister.constructor | src/presentation/register/ProductRegister.tsx:24-40 | The form starts as `initialFormState` (every field empty) with no errors. |
| ProductRegistration.ProductRegister.Validate | src/presentation/register/ProductRegister.tsx:43-55 | The stored record is the one `ErrorsOf` gives for the form and the price, so by its contract each of the six required fields gets its own message exactly when it is blank after trimming. The price gets its message exactly when its text is empty, not a number, or not positive. There is no key for the description. Valid exactly when no key is set, and exactly when the form meets every check. |
| ProductRegistration.ProductRegister.Submit | src/presentation/register/ProductRegister.tsx:57-84 | The stored errors are the record `validate` builds for the submitted form in every case. An invalid form sends nothing and keeps what was typed. A valid form sends its payload. The form returns to the initial state only when the product was created; a failed request leaves it as it was. |
| EmployeeRegistration.HexDigit | src/presentation/register/RegisterScreen.tsx:67 | `toString(16)` of a value below 16 is one lowercase hexadecimal digit. |
| EmployeeRegistration.HexValue | src/presentation/register/RegisterScreen.tsx:67 | Reading a character as a digit succeeds exactly on lowercase hexadecimal digits. It gives a value below 16 whose digit is that character. |
| EmployeeRegistration.ToBase16 | src/presentation/register/RegisterScreen.tsx:67 | `n.toString(16)` has at least one digit, and exactly one when `n` is below 16. |
| EmployeeRegistration.PadStart2 | src/presentation/register/RegisterScreen.tsx:67 | `padStart(2, '0')` pads with zeros in front up to length 2 and keeps the text as its suffix. |
| EmployeeRegistration.PaddedBase16 | src/presentation/register/RegisterScreen.tsx:67 | `b.toString(16).padStart(2, '0')` is exactly the two digits of the byte, high nibble first, zero-padded below 16. |
| EmployeeRegistration.Hex | src/presentation/register/RegisterScreen.tsx:67 | The joined text has two characters per byte, and all of them are lowercase hexadecimal digits. |
| EmployeeRegistration.HexAt | src/presentation/register/RegisterScreen.tsx:67 | Byte `i` is written at positions `2i` (high nibble) and `2i + 1` (low nibble). |
| EmployeeRegistration.FromHex | src/presentation/register/RegisterScreen.tsx:67 | Reading hexadecimal pairs back gives half as many bytes as characters. |
| EmployeeRegistration.HexRoundTrip | src/presentation/register/RegisterScreen.tsx:67 | Reading the hexadecimal text back gives the bytes. |
| EmployeeRegistration.HexInjective | src/presentation/register/RegisterScreen.tsx:67 | Different byte sequences never share a hexadecimal text. |
| EmployeeRegistration.HashPassword | src/presentation/register/RegisterScreen.tsx:63-68 | The hash is 64 lowercase hexadecimal characters that read back as the password's SHA-256 digest. |
| EmployeeRegistration.ErrorsOf | src/presentation/register/RegisterScreen.tsx:51-58 | The record `validate` builds: an entry exactly for each blank text, for a falsy store, and for an empty (untrimmed) password; empty exactly when every check passes. |
| EmployeeRegistration.Payload | src/presentation/register/RegisterScreen.tsx:74-81 | The four texts are trimmed, and each is non-empty when its field is not blank. The store id and the password hash pass through, and the payload has no field for the raw password. |
| EmployeeRegistration.EmployeeRegister.constructor | src/presentation/register/RegisterScreen.tsx:18-25 | The form starts cleared: empty texts, no store chosen, no errors. |
| EmployeeRegistration.EmployeeRegister.Validate | src/presentation/register/RegisterScreen.tsx:51-61 | The stored record is the one `ErrorsOf` gives for the fields, so by its contract the four texts each get their message exactly when blank after trimming. A falsy store (`''` or 0) gets the store message. The password gets its message only when empty; it is not trimmed. Valid exactly when no key is set, and exactly when every check passes. |
| EmployeeRegistration.EmployeeRegister.Submit | src/presentation/register/RegisterScreen.tsx:70-107 | The stored errors are the record `validate` builds for the submitted fields in every case. It posts exactly when the form is valid. The payload carries the trimmed fields, the store id, and the hash of the password. Only an accepted response clears every field and the errors. A rejected response or a network error leaves the fields as they were. |
| Login.ErrorsOf | src/presentation/login/LoginScreen.tsx:21-26 | The record `validate` builds has only the keys `username` and `password`: an entry for a blank username and one for an empty, untrimmed password; empty exactly when neither check fails. |
| Login.LoginScreen.constructor | src/presentation/login/LoginScreen.tsx:18-21 | The screen starts with an empty username and password and no errors. |
| Login.LoginScreen.Validate | src/presentation/login/LoginScreen.tsx:23-29 | The stored record is the one `ErrorsOf` gives, so by its contract a blank username (after trimming) gets `username`. An empty password, not trimmed, gets `password`. No other key exists. Valid exactly when neither key is set. |
| Login.LoginScreen.Submit | src/presentation/login/LoginScreen.tsx:31-36 | The stored errors are the record `validate` builds. The submit goes on past the early return exactly when the username is not blank and the password is not empty, which is when no error was recorded. |
| Login.WhitespacePasswordAccepted | src/presentation/login/LoginScreen.tsx:26 | Any non-empty password made of whitespace alone gets no password error. |

## Left out

- HTTP. Fetching the catalog, creating a product, posting an employee, loading the store list
  and its fallback: the catalog is an input sequence, and the outcome of a request is a
  parameter (`Outcome`, `Response`). `getProducts`, `updateProductInventories` and
  `doCreateProduct` are not part of this model.
- `localStorage` and `JSON.parse`/`JSON.stringify`. The storage is a map from key to
  `Option<Inventory>`, where `None` stands for missing, empty or unparseable text. The
  logged-in employee record is a parameter `Option<Employee>` with only its store fields.
- Ledger.LoadLocal: stored text that parses to something other than an object (`null`, a
  number, a boolean, a string) is not modelled; the model reads it as an empty ledger. In the
  source, a sale with a non-empty cart then throws inside the decrement loop, so nothing is
  stored, no receipt is made and the cart is kept; and seeding from `null` throws, so the
  dashboards keep their previous map (the products dashboard shows its load error).
- `localStorage.setItem` always succeeds in the model. In the source it can throw (a full
  quota, say); a sale then stops before the map is replaced, no receipt is made and the cart
  is kept.
- Ledgers are `map<string, int>`, whose missing keys read 0. In the source they are plain
  objects, so an id named like an `Object.prototype` member (`constructor`, `toString`,
  `__proto__`) reads that member instead of 0 in `localInv[id] ?? 0`, and such a product would
  pass the stock guard with no stock. Such keys are not modelled.
- Stored inventories are `map<string, int>`. Stored values that are not integers (text, NaN,
  fractions) are not modelled, so `Number(x) || 0` in increment and decrement reduces to
  "missing counts as 0".
- SHA-256 over the UTF-8 bytes of the password (`TextEncoder`, `crypto.subtle.digest`) is a
  function parameter returning 32 bytes.
- `Number(...)` coercion of typed text is a given `Option<real>`, where `None` is NaN.
  ProductRegistration.Payload takes the price that passed validation. Infinity is not modelled.
- `useForm` is not part of this model. Its field values are `ProductForm` and `onResetForm` is
  taken to restore `initialFormState`.
- Display and side effects are not modelled:
  - the jsPDF receipt layout, dates and the file name;
  - `toFixed`;
  - `alert`, `console`, navigation, the drawer;
  - the paradox chart's bubble radius (a float division that can divide by zero) and the
    colours.
  - The receipt is modelled only as its lines and total.
- Floating point. Prices, totals, days, sales and inventory are `real`, so there is no rounding.
- React's batched updates, StrictMode double invocation and effect timing.
  - The in-place increment of `updated[idx].cantidad` is modelled as a plain quantity update of
    a new sequence.
- Catalog.Decimal: JavaScript's number-to-string rule is modelled for integers only. Exponent
  forms, fractions and `-0` are not modelled. Numeric id 5 and text id "5" share the key "5",
  as they do in the source.
- `Text.Trim` covers the whitespace and line-terminator code points that ECMAScript lists.
  Strings are sequences of code points, not UTF-16 units.
