# RELIEVE storefront: the page logic, modelled in Dafny

RELIEVE is a React storefront for perfumes that sells in taka, with a Supabase
backend. Beyond pass-through calls to the backend, its pages hold many small,
exact rules:

- The guest order form and the logged-in checkout each validate their input
  and build the order row, including its notes text.
- The customer orders page and the admin orders, dashboard, products, banners
  and users pages filter, count and sum lists of rows.
- The home-page banner carousel steps an index around the banners.
- The product page has a quantity stepper and stock badges; the review form
  builds a record and the page shows the average rating.
- The auth context keeps a session and an admin flag in local storage.
- The forgot-password wizard goes from phone to one-time code to new password.
- The products page keeps the chosen category in the URL.

This project states those rules as pure Dafny functions over immutable
datatypes and proves properties of them. Each page file has its own module.
There are also shared modules: `Wrappers` (`Option`, `Result`), `Seqs`
(filter, count, sum), `Text` (JavaScript's `trim`, `\s`, ASCII case mapping,
`Number()` on integers), `Constants`, `Types` (the table rows), `Uploads`
(the image guard), `Render` (what a JSX `{a && b}` slot shows) and `Rows`
(deleting by id).

Every backend call is a parameter:

- a `bool` or `Result` saying whether the backend answered without error; or
- the rows it returned; or
- a pure function over an in-memory list that stands for the table.

The clock (`now`), `Math.random()` (a real `r` in [0, 1)) and a file's
FileReader data URL are also parameters.

## Model

| member | source | states |
|---|---|---|
| GuestOrder.MatchPhonePattern | src/components/checkout/GuestOrderForm.tsx:52-53 | The loop answers true exactly when the text is `01`, a digit 3-9 and eight more digits (the `/^01[3-9]\d{8}$/` pattern), eleven characters in all |
| GuestOrder.Validate | src/components/checkout/GuestOrderForm.tsx:46-63 | Checks run in order: any required field blank after trimming, then a phone that fails the pattern once all whitespace is removed, then a wallet order with a blank sender or transaction id. The first failing check is the error; with none the form passes, and cash on delivery never checks the wallet fields |
| GuestOrder.GuestNotes | src/components/checkout/GuestOrderForm.tsx:85-87 | Cash on delivery keeps the trimmed notes, or none when blank. A wallet order always has notes: the payment line naming the wallet, sender and transaction id, preceded by the trimmed notes and " \| " only when notes were typed |
| GuestOrder.BuildOrder | src/components/checkout/GuestOrderForm.tsx:41-90 | The guest order has no user, is marked guest and pending, and records the chosen method. It has exactly one line (product id, name, price, quantity), a total of price times quantity, trimmed contact fields and the notes above |
| GuestOrder.Submit | src/components/checkout/GuestOrderForm.tsx:43-104 | An order is sent exactly when validation passes, and it is the built order. The form is kept. Success is recorded only when the insert succeeds |
| GuestOrder.Close | src/components/checkout/GuestOrderForm.tsx:106-113 | After a success, closing clears all seven fields and returns to cash on delivery; otherwise closing changes nothing |
| GuestOrder.CloseAfterSubmit | src/components/checkout/GuestOrderForm.tsx:43-113 | After a valid submission whose insert succeeds, closing returns the dialog to its initial state. A submission that fails keeps what was typed through the close. Closing twice is closing once |
| GuestOrder.SpacedPhoneIsStoredWithSpaces | src/components/checkout/GuestOrderForm.tsx:53-72 | A valid number typed with a space inside passes the check, and the order stores it with the space, because only the ends are trimmed |
| Checkout.InitialForm | src/pages/Checkout.tsx:26-34 | The form starts empty except for the phone, which is the signed-in user's |
| Checkout.ValidatePayment | src/pages/Checkout.tsx:50-57 | bKash with an empty bKash number, or Nagad with an empty Nagad number, is refused. Nothing is trimmed, and cash on delivery always passes |
| Checkout.LineFromCart | src/pages/Checkout.tsx:62-67 | A cart entry becomes an order line with its product id and quantity. Without a loaded product the name falls back to "" and the price to 0 |
| Checkout.OrderItems | src/pages/Checkout.tsx:62-67 | The order lines match the cart entries one for one, in order |
| Checkout.SummaryMatchesOrderLines | src/pages/Checkout.tsx:378 | Each summary line shows the amount the matching order line records, so the summary lines add up to the order lines' sum |
| Checkout.PaymentNotes | src/pages/Checkout.tsx:69-73 | Empty exactly for cash on delivery. For a wallet the text is exactly "bKash: " or "Nagad: " with the number from that wallet's field, then ", TxnID: " and the id only when an id was typed |
| Checkout.PaymentNotesRecordTransaction | src/pages/Checkout.tsx:69-73 | For one wallet and one sender number, two forms give the same notes exactly when they give the same transaction id, so the id is recoverable from the notes |
| Checkout.CombineNotes | src/pages/Checkout.tsx:86 | The non-empty parts of [notes, payment notes], joined by " \| ", or null when both are empty |
| Checkout.CheckoutOrder | src/pages/Checkout.tsx:75-87 | The order belongs to the user, is pending, records the chosen method and the cart total, has the cart's lines and stores the address fields as typed |
| Checkout.View | src/pages/Checkout.tsx:36-107 | No user: go to `/login?redirect=/checkout`. Empty cart and nothing placed: go to `/cart`. Placed: the confirmation. Otherwise the form. Exactly one of these holds |
| Checkout.Submit | src/pages/Checkout.tsx:46-105 | A payment check failure sends nothing. Otherwise the built order is sent. A failed insert leaves the cart and page unchanged; a successful one clears the cart and records the order id |
| Checkout.PlacedOrderShowsConfirmation | src/pages/Checkout.tsx:91-107 | After a successful placement the page shows the confirmation, even though the cart is now empty |
| Orders.OrderTotal | src/pages/Orders.tsx:43-46 | The stored total when it is positive, otherwise the sum of price times quantity over the lines |
| Orders.ComputeOrderTotal | src/pages/admin/AdminOrders.tsx:75-78 | The loop computes the same total as the fold; with a non-positive stored total and non-negative lines it is non-negative |
| Orders.StatusColorsDistinct | src/pages/Orders.tsx:48-61 | The four statuses get four different badge classes, none of them the gray class that any other value gets. The admin page's classes behave the same way |
| Orders.CustomerPaymentLabel | src/pages/Orders.tsx:149 | A known method shows its label; any other code shows "Cash on Delivery" |
| Orders.DisplayId | src/pages/Orders.tsx:118 | The order number is the id's first eight characters (fewer if the id is shorter), upper-cased one by one |
| Orders.LoadOrdersPage | src/pages/Orders.tsx:18-29 | Without a user the page goes to `/login?redirect=/orders` and fetches nothing; with one it fetches that user's orders |
| AdminOrders.FilterOrders | src/pages/admin/AdminOrders.tsx:80-87 | In list order, exactly the orders that match both the search and the status filter |
| AdminOrders.EmptySearchShowsAll | src/pages/admin/AdminOrders.tsx:81-85 | An empty search with the "all" filter shows every order, in order |
| AdminOrders.UpdateStatus | src/pages/admin/AdminOrders.tsx:40-51 | Only after the backend succeeds, the orders with that id take the new status. Every other order and the list length are unchanged |
| AdminOrders.UpdateStatusTakesEffect | src/pages/admin/AdminOrders.tsx:40-51 | After a successful update an order with the id is the same order with the new status. Orders with other ids are unchanged, the filter shows it exactly when the new status is chosen, and a second identical update changes nothing |
| AdminOrders.AdminPaymentLabel | src/pages/admin/AdminOrders.tsx:178 | A known method shows its label; any other code shows "COD" |
| Dashboard.RevenueSplits | src/pages/admin/AdminDashboard.tsx:38-40 | Revenue over two lists is the sum of their revenues |
| Dashboard.RevenueOfOne | src/pages/admin/AdminDashboard.tsx:38-40 | One order contributes its stored total, or nothing when cancelled |
| Dashboard.Revenue | src/pages/admin/AdminDashboard.tsx:38-40 | The revenue is the sum over all orders where a cancelled order counts 0 and any other its stored total |
| Dashboard.RevenueNonNegative | src/pages/admin/AdminDashboard.tsx:38-40 | With non-negative stored totals the revenue is non-negative |
| Dashboard.PendingCount | src/pages/admin/AdminDashboard.tsx:41 | The number of pending orders, at most the number of orders |
| Dashboard.DeliveredOrders | src/pages/admin/AdminDashboard.tsx:42 | In list order, exactly the delivered orders |
| Dashboard.FetchStats | src/pages/admin/AdminDashboard.tsx:29-52 | All the dashboard figures at once: order count, revenue, pending count, and the first five orders (or all, if fewer). A missing product or user count shows 0, and a failed order fetch counts as no orders |
| Dashboard.PendingAlertAgreesOffZero | src/pages/admin/AdminDashboard.tsx:199 | Whenever the written alert slot shows no stray text, the corrected slot shows the same thing |
| Dashboard.NoPendingShowsStrayZero | src/pages/admin/AdminDashboard.tsx:199 | With no pending orders, the slot as written shows a stray "0" |
| Dashboard.PendingAlertAsWritten | src/pages/admin/AdminDashboard.tsx:199 | The alert slot as written shows a stray "0" exactly when the figures are loaded with no pending order, and the alert exactly when some order is pending |
| Dashboard.PendingAlert | src/pages/admin/AdminDashboard.tsx:199-207 | The alert shows exactly when there are pending orders, and with their number. It never shows stray text |
| Dashboard.PendingAlertIffSomePending | src/pages/admin/AdminDashboard.tsx:41-199 | After a fetch, the alert shows exactly when some order is pending |
| Dashboard.CustomerLabel | src/pages/admin/AdminDashboard.tsx:242 | A guest order shows the guest's name; any other shows "Registered User" |
| Dashboard.ResetRevenue | src/pages/admin/AdminDashboard.tsx:63-72 | After a successful reset each non-cancelled order is the same order with total 0, and cancelled orders are unchanged. A failed reset changes nothing |
| Dashboard.ResetClearsRevenue | src/pages/admin/AdminDashboard.tsx:66-75 | After the reset the recomputed revenue is 0, while the pending and delivered counts are as before |
| Dashboard.ResetOrderShowsLineSum | src/pages/admin/AdminDashboard.tsx:69 | After the reset, a non-cancelled order's total on the customer page (src/pages/Orders.tsx lines 43 to 46) falls back to the sum of its lines |
| Carousel.Next | src/components/home/BannerCarousel.tsx:52-54 | The next index stays in [0, n): one more, wrapping from the last slide to the first |
| Carousel.Prev | src/components/home/BannerCarousel.tsx:49-51 | The previous index stays in [0, n): one less, wrapping from the first slide to the last |
| Carousel.PrevUndoesNext | src/components/home/BannerCarousel.tsx:49-54 | On any index on screen, "previous" undoes "next" and "next" undoes "previous" |
| Carousel.NextTimesAdvances | src/components/home/BannerCarousel.tsx:42-53 | k steps forward that do not reach the end advance the index by k |
| Carousel.NextTimesCompose | src/components/home/BannerCarousel.tsx:42-53 | a + b steps forward are a steps and then b steps |
| Carousel.FullCycleReturns | src/components/home/BannerCarousel.tsx:42-53 | n steps forward return to the starting slide |
| Carousel.Step | src/components/home/BannerCarousel.tsx:20-54 | The fetch is taken once, while loading; a failed or empty answer leaves no banners. Ticks, arrows and dots do nothing with fewer than two banners |
| Carousel.RunKeepsReachable | src/components/home/BannerCarousel.tsx:18-60 | From the initial state, any sequence of events keeps the index on a banner |
| Carousel.View | src/components/home/BannerCarousel.tsx:57-145 | The default hero shows exactly while loading or with no banners. Otherwise the current banner's image shows, with its own title (also the alt text), subtitle, button text and link wherever they are set, and "Discover Your" (alt "Banner"), "Signature Scent", "Shop Now" and "/products" in their place when they are not |
| Carousel.Dots | src/components/home/BannerCarousel.tsx:169-170 | One dot per banner, only with two or more banners; a dot is highlighted exactly when it is the current index |
| Carousel.ExactlyOneDotActive | src/components/home/BannerCarousel.tsx:170 | Exactly one dot is highlighted |
| Banners.FormOf | src/pages/admin/AdminBanners.tsx:68-76 | The edit form: null title and subtitle become "", an empty button text or link takes its default, and the rest is copied |
| Banners.OpenDialog | src/pages/admin/AdminBanners.tsx:65-84 | Editing loads the banner's form and image. A new banner gets the defaults ("Shop Now", "/products", active, no image) and a sort order equal to the number of banners |
| Banners.FormOfKeepsSavedValues | src/pages/admin/AdminBanners.tsx:68-76 | A banner whose texts are all set opens with exactly its own values |
| Banners.UploadImage | src/pages/admin/AdminBanners.tsx:86-125 | A non-image, a file over 10 MiB or a failed upload changes nothing. Otherwise the dialog gets the form as it was when the upload started, with the stored URL as its image, and that URL as the preview |
| Banners.UploadKeepsOnlyCapturedEdits | src/pages/admin/AdminBanners.tsx:116 | An upload that succeeds replaces the form with the one captured when it started, so a title typed while the file was uploading is lost |
| Banners.RemoveImage | src/pages/admin/AdminBanners.tsx:267-269 | Removing the image clears the form's URL and the preview; every other field of the form, the banner being edited and the open flag stay as they were |
| Banners.SaveTargetsDialog | src/pages/admin/AdminBanners.tsx:127-160 | A new banner saved before any upload sends nothing and stays open, and so does a dialog whose image was removed. A stored upload lets the save through. A reopened banner is updated by its id, and the dialog closes when the backend agrees |
| Banners.SaveRequestOf | src/pages/admin/AdminBanners.tsx:127-150 | No image: no request. Otherwise an update of the edited banner's id, or an insert when there is none |
| Banners.Save | src/pages/admin/AdminBanners.tsx:127-160 | The dialog closes exactly when there is an image and the backend succeeds; the form is kept |
| Banners.ToggleActive | src/pages/admin/AdminBanners.tsx:176-181 | A failed update leaves the list unchanged. Otherwise the banner with the id gets the negation of the flag on screen and every other banner is unchanged |
| Banners.ToggleTwiceRestores | src/pages/admin/AdminBanners.tsx:176-184 | Flipping a banner's switch twice restores the list |
| Banners.ActiveBanners | src/pages/admin/AdminBanners.tsx:192 | In list order, exactly the active banners |
| Banners.PreviewDisabledIffNoneActive | src/pages/admin/AdminBanners.tsx:205 | The preview button is disabled exactly when no banner is active |
| Banners.PreviewTexts | src/pages/admin/AdminBanners.tsx:224-227 | With an active banner: its title, or "Banner Title" when the title is missing or empty, and its button text, or "Shop Now" when that is empty. With none active: "Banner Title" and "Shop Now" |
| Banners.PreviewMatchesFirstSlide | src/pages/admin/AdminBanners.tsx:224-227 | With an active banner, the preview shows the button text of the home page's first slide, and its title when the banner has a non-empty one. Without a title the two pages differ: the home page shows "Discover Your", the preview "Banner Title" |
| Rows.DeleteById | src/pages/admin/AdminBanners.tsx:162-174 | After a confirmed, successful delete, no row has the id and every other row is still there, in order. Otherwise nothing changes. The same handler deletes products (src/pages/admin/AdminProducts.tsx:160-172) and users (src/pages/admin/AdminUsers.tsx:34-46) |
| Rows.DeleteByIdIdempotent | src/pages/admin/AdminProducts.tsx:160-172 | Deleting an id no row has changes nothing, so a second delete of the same id changes nothing |
| AdminProducts.FormOf | src/pages/admin/AdminProducts.tsx:64-75 | The edit form: a missing description or image becomes "", a missing rating or discount becomes 0, and a missing or zero original price becomes null |
| AdminProducts.OpenDialog | src/pages/admin/AdminProducts.tsx:61-83 | Editing loads the product's form, with a preview exactly when it has an image. A new product gets the `emptyProduct` defaults and no preview |
| AdminProducts.UploadImage | src/pages/admin/AdminProducts.tsx:85-129 | A non-image, a file over 5 MiB or a failed upload changes nothing. Otherwise the dialog gets the form as it was when the upload started, with the stored URL as its image, and that URL as the preview |
| AdminProducts.UploadKeepsOnlyCapturedEdits | src/pages/admin/AdminProducts.tsx:121 | An upload that succeeds replaces the form with the one captured when it started, so a price typed while the file was uploading is lost |
| AdminProducts.RemoveImage | src/pages/admin/AdminProducts.tsx:336-338 | Removing the image clears the form's URL and the preview; every other field of the form, the product being edited and the open flag stay as they were |
| AdminProducts.DiscountInput | src/pages/admin/AdminProducts.tsx:274 | The discount field reads a number, and an empty or non-numeric entry becomes 0 |
| AdminProducts.OriginalPriceInput | src/pages/admin/AdminProducts.tsx:258 | An empty original-price field is null; anything else is read as a number |
| AdminProducts.DiscountInputsRoundTrip | src/pages/admin/AdminProducts.tsx:258-274 | Typing a number's decimal digits into either field gives back that number |
| AdminProducts.DiscountedPrice | src/pages/admin/AdminProducts.tsx:280-281 | For a discount from 0 to 100 the discounted price lies between 0 and the original; no discount keeps the original |
| AdminProducts.ZeroOriginalPriceShowsStrayZero | src/pages/admin/AdminProducts.tsx:279 | An original price typed as "0" makes the hint slot show a stray "0" |
| AdminProducts.DiscountHintAsWritten | src/pages/admin/AdminProducts.tsx:279 | The hint slot as written shows a stray "0" exactly when the original price reads as 0, and the hint exactly for a non-zero original price with a positive discount |
| AdminProducts.DiscountHint | src/pages/admin/AdminProducts.tsx:279-283 | The hint never shows stray text, and wherever the written slot is clean it agrees with it |
| AdminProducts.SaveRequestOf | src/pages/admin/AdminProducts.tsx:131-149 | An update of the edited product's id when it has one, otherwise an insert, always of the form as it stands |
| AdminProducts.Save | src/pages/admin/AdminProducts.tsx:131-158 | The dialog closes exactly when the backend succeeds; the form is kept |
| AdminProducts.RemovedImageIsSaved | src/pages/admin/AdminProducts.tsx:131-158 | With no image guard on this page, a save after removing the image still goes through and writes the form with an empty image; the dialog closes exactly when the backend agrees |
| AdminProducts.FilterProducts | src/pages/admin/AdminProducts.tsx:174-176 | In list order, exactly the products whose lower-cased name contains the lower-cased query |
| AdminProducts.EmptySearchKeepsAll | src/pages/admin/AdminProducts.tsx:174-176 | An empty search keeps every product, in order |
| AdminUsers.FilterUsers | src/pages/admin/AdminUsers.tsx:48-51 | In list order, exactly the users whose lower-cased name contains the lower-cased query or whose phone contains the query as typed |
| AdminUsers.EmptySearchShowsAll | src/pages/admin/AdminUsers.tsx:48-51 | An empty search keeps every user, in order |
| AdminUsers.PhoneSearchFindsUser | src/pages/admin/AdminUsers.tsx:50 | Searching for a user's full phone number finds that user |
| AdminUsers.TotalUsers | src/pages/admin/AdminUsers.tsx:137 | The footer counts every user, at least as many as the search shows |
| ProductCard.ZeroDiscountShowsStrayZero | src/components/products/ProductCard.tsx:100 | A discount of 0 makes the badge slot show a stray "0" |
| ProductCard.DiscountSlotAsWritten | src/components/products/ProductCard.tsx:100 | The slot as written shows a stray "0" exactly when the discount is 0, or is positive with an original price of 0; it shows the badge exactly when the corrected condition holds |
| ProductCard.ZeroOriginalPriceShowsStrayZero | src/components/products/ProductCard.tsx:100 | A positive discount with an original price of 0 makes the badge slot show a stray "0" |
| ProductCard.DiscountSlot | src/components/products/ProductCard.tsx:100-109 | The badge shows exactly when the discount is positive and the original price is present and non-zero, with those two values. It never shows stray text |
| ProductCard.DiscountSlotAgreesOffZero | src/components/products/ProductCard.tsx:100 | Where the written slot is clean it equals the corrected one; where it shows the stray "0", the corrected one shows nothing |
| ProductCard.StockBadgesExclusive | src/components/products/ProductCard.tsx:53-62 | "Low Stock" and "Out of Stock" never show together. Neither shows from 10 up. One of them shows exactly for stock from 0 to 9 |
| ProductCard.Badges | src/components/products/ProductCard.tsx:48-62 | The card carries the Featured badge exactly for a featured product, Low Stock exactly for stock from 1 to 9, and Out of Stock exactly for stock 0; at most two badges, Featured first |
| ProductCard.BuyTarget | src/components/products/ProductCard.tsx:27-31 | The buy button goes to `/products/` followed by the product's id |
| ProductCard.ImageSrc | src/components/products/ProductCard.tsx:44 | The product's image when it has one, else a non-empty placeholder |
| ProductCard.CardRating | src/components/products/ProductCard.tsx:91 | The stars show the product's rating, or 0 without one |
| ProductDetail.Decrement | src/pages/ProductDetail.tsx:201 | Minus never goes below 1 and otherwise takes one off |
| ProductDetail.Increment | src/pages/ProductDetail.tsx:211 | Plus never goes above the stock and otherwise adds one |
| ProductDetail.PressStepper | src/pages/ProductDetail.tsx:199-215 | A disabled button does nothing; an enabled one moves the quantity by exactly one |
| ProductDetail.StepperStaysInRange | src/pages/ProductDetail.tsx:199-215 | From 1, any sequence of presses keeps the quantity between 1 and the stock. With stock 1 or less it stays at 1 |
| ProductDetail.ClampsKeepRange | src/pages/ProductDetail.tsx:201-211 | With a quantity in range, either press keeps it in range |
| ProductDetail.HandleAddToCart | src/pages/ProductDetail.tsx:64-74 | Without a user: the login prompt, and the cart is left alone. With a user and a product: add that product with the chosen quantity |
| ProductDetail.AddedQuantityIsInStock | src/pages/ProductDetail.tsx:64-215 | A signed-in user adding an item in stock, after any stepper presses from 1, adds that product with a quantity between 1 and the stock |
| ProductDetail.ConfirmAmount | src/pages/ProductDetail.tsx:230 | The confirm button's amount is the line amount of the product at the chosen quantity: price times quantity. It is the price for one item and at least the price for more |
| ProductDetail.ConfirmAmountIsGuestTotal | src/pages/ProductDetail.tsx:230-274 | The amount on the confirm button equals the total of the guest order the form then builds, and the sum of that order's lines |
| ProductDetail.DiscountLine | src/pages/ProductDetail.tsx:156 | The corrected slot: the strike-through price shows exactly under the card's badge condition. As written the page shows the card's stray "0" (ProductCard.DiscountSlotAsWritten, first Findings row) |
| ProductDetail.LoadProduct | src/pages/ProductDetail.tsx:35-48 | A found product is shown; a failed fetch goes back to `/products` |
| Stars.Row | src/components/ui/rating.tsx:12-22 | Exactly `max` stars, each classified by its index |
| Stars.HalfStarIsUnique | src/components/ui/rating.tsx:27-31 | A half star sits at the integer part of the value, only for a value that is not whole, and there is at most one |
| Stars.RowIsOrdered | src/components/ui/rating.tsx:27-31 | Full stars come before the half star, which comes before the empty ones |
| Stars.WholeRatingShowsThatManyStars | src/components/ui/rating.tsx:27-31 | For a whole value v up to max, exactly v stars are full and none is half |
| Stars.HalfRatingShowsOneHalfStar | src/components/ui/rating.tsx:27-31 | For a whole v below max, the value v + 0.5 shows v full stars, the star at index v half, and exactly one half star |
| Reviews.ChooseImage | src/components/products/ProductReviews.tsx:58-72 | A file over 5 MiB is refused and nothing changes; otherwise the file and its preview are kept. The type is not checked |
| Reviews.PressStar | src/components/products/ProductReviews.tsx:200-204 | A star button sets the rating to its number, 1 to 5 |
| Reviews.RecordOf | src/components/products/ProductReviews.tsx:106-112 | The row holds the trimmed name, the chosen rating, the trimmed comment (or null when blank) and the image URL |
| Reviews.Submit | src/components/products/ProductReviews.tsx:74-134 | A blank name is refused, and so is a failed upload, with nothing inserted. An inserted row always has a name. Without an image its URL is null. Only a successful insert resets the form |
| Reviews.RatingStaysInRange | src/components/products/ProductReviews.tsx:200-204 | From a rating in 1..5, any sequence of form events keeps it in 1..5 |
| Reviews.InsertedRatingInRange | src/components/products/ProductReviews.tsx:109 | Every inserted review has a rating from 1 to 5 |
| Reviews.AverageWithinBounds | src/components/products/ProductReviews.tsx:136-138 | The average of non-empty reviews lies between the lowest and the highest rating |
| Reviews.AverageOfEqualRatings | src/components/products/ProductReviews.tsx:136-138 | Reviews that all give v average to v |
| Reviews.AverageRating | src/components/products/ProductReviews.tsx:136-138 | 0 for no reviews; otherwise the average times the number of reviews is the sum of their ratings |
| Reviews.CountLabel | src/components/products/ProductReviews.tsx:160 | "review" exactly for one review, and "reviews" for every other count |
| Auth.Public | src/context/AuthContext.tsx:55-60 | The session's user carries the row's id, name, phone and creation time, and no password |
| Auth.Restore | src/context/AuthContext.tsx:24-36 | On mount the user comes back from the user key, and the admin flag is set exactly when the admin key holds "true" |
| Auth.RestoreIsPersisted | src/context/AuthContext.tsx:24-36 | A restored session is one a reload gives back unchanged |
| Auth.Login | src/context/AuthContext.tsx:38-68 | No single row for the phone gives "User not found", and a wrong password gives "Invalid password"; both leave the session alone. Success signs in the public user and saves it |
| Auth.Register | src/context/AuthContext.tsx:70-106 | Corrected check: a phone held by any row gives "Phone number already registered" and inserts nothing. Otherwise the row is inserted; the backend's error is passed on, and success signs in the new user and saves them |
| Auth.RegisterAsWritten | src/context/AuthContext.tsx:70-106 | As the page writes it: refused only when exactly one row holds the phone. Otherwise the row is inserted, with the same error and sign-in handling |
| Auth.RegisterAgreesOnUniquePhones | src/context/AuthContext.tsx:72-81 | With at most one row per phone the corrected and the written registration give the same outcome |
| Auth.RegisterKeepsPhonesUnique | src/context/AuthContext.tsx:72-81 | Whenever the corrected registration inserts, the phone then belongs to exactly one row |
| Auth.DuplicatePhoneIsNotSeen | src/context/AuthContext.tsx:73-81 | With two rows already holding the phone, the written existence check misses them and inserts a third row; the corrected check refuses |
| Auth.Logout | src/context/AuthContext.tsx:108-111 | Logout clears the user and its key and keeps the admin flag and every other key |
| Auth.AdminLogin | src/context/AuthContext.tsx:113-129 | Succeeds exactly when one row matches both username and password; it then sets and saves the admin flag. Otherwise it fails with "Invalid admin credentials" and changes nothing |
| Auth.AdminLogout | src/context/AuthContext.tsx:131-134 | Clears only the admin flag and its key |
| Auth.OperationsPersist | src/context/AuthContext.tsx:38-134 | Every operation keeps memory and storage in agreement, so a reload restores the same session |
| Auth.CustomerLoginKeepsAdminFlag | src/context/AuthContext.tsx:38-111 | Customer logout and login never touch the admin flag |
| ForgotPassword.GenerateOtp | src/pages/ForgotPassword.tsx:22-24 | The code lies in [100000, 999999] |
| ForgotPassword.OtpHasSixDigits | src/pages/ForgotPassword.tsx:22-24 | The code has exactly six digits |
| ForgotPassword.SendOtp | src/pages/ForgotPassword.tsx:26-69 | An unregistered phone, or a failed insert, keeps the wizard on the phone step. Otherwise a code expiring ten minutes later is stored and the wizard moves to the code step |
| ForgotPassword.Newest | src/pages/ForgotPassword.tsx:83-85 | The row picked is one of the rows, and none is newer |
| ForgotPassword.MarkUsed | src/pages/ForgotPassword.tsx:94 | The rows with the id get the used flag; every other row, and the number of rows, is unchanged |
| ForgotPassword.Lookup | src/pages/ForgotPassword.tsx:76-91 | Found exactly when some row has the phone and the code, is unused and has not expired. The row found is the newest such row |
| ForgotPassword.VerifyOtp | src/pages/ForgotPassword.tsx:71-103 | The wizard moves to the password step exactly when a redeemable code is found, and that row is then marked used |
| ForgotPassword.CodeIsSingleUse | src/pages/ForgotPassword.tsx:94 | Once a code is accepted and marked used, the same code is refused later, unless another row with that code was also issued |
| ForgotPassword.CodeExpires | src/pages/ForgotPassword.tsx:46-82 | A code issued more than ten minutes ago no longer verifies |
| ForgotPassword.ChangePhone | src/pages/ForgotPassword.tsx:210 | "Change Phone Number" returns from the code step to the phone step |
| ForgotPassword.SetPassword | src/pages/ForgotPassword.tsx:121-124 | Every user with the phone gets the new password; all other rows are unchanged |
| ForgotPassword.ResetPassword | src/pages/ForgotPassword.tsx:105-139 | A mismatch is reported first, then a password under six characters; neither touches the table. Success writes the password and goes to `/login` |
| ForgotPassword.ResetThenLogin | src/pages/ForgotPassword.tsx:105-139 | When exactly one account has the phone, a reset with a valid password succeeds, and signing in with the phone and the new password then succeeds |
| ForgotPassword.OnlyAllowedMoves | src/pages/ForgotPassword.tsx:38-210 | The only moves are phone to code, code to password and code back to phone |
| ForgotPassword.PasswordStepNeedsCode | src/pages/ForgotPassword.tsx:71-97 | Reaching the password step requires a redeemable code for the phone |
| LoginPage.RedirectTarget | src/pages/Login.tsx:17 | The `redirect` parameter when it is non-empty; "/" when it is missing or empty |
| LoginPage.CheckRegistration | src/pages/Login.tsx:42-50 | A mismatch is reported before length. A password shorter than six is refused; otherwise it passes |
| LoginPage.SameRuleAsReset | src/pages/Login.tsx:42-50 | Registration and the reset wizard apply the same rule in the same order for every input: a mismatch on one page is a mismatch on the other, likewise a short password, and a password passes both or neither, with the same messages |
| LoginPage.AfterAuth | src/pages/Login.tsx:30-65 | Navigates exactly on success, to the redirect target |
| LoginPage.LoginReturnsToCaller | src/pages/Login.tsx:17-32 | For any query and any page put in `redirect`, a successful sign-in goes to that page, or home when it is empty, and a failed one goes nowhere |
| ProductsPage.UrlCategory | src/pages/Products.tsx:14-16 | The `category` parameter when it is non-empty; "All" when it is missing or empty |
| ProductsPage.Open | src/pages/Products.tsx:14-16 | On arrival the selection is the category read from the URL, and the URL is kept |
| ProductsPage.SyncFromUrl | src/pages/Products.tsx:18-23 | A non-empty parameter replaces the selection; otherwise the selection stays |
| ProductsPage.ChooseCategory | src/pages/Products.tsx:25-74 | A listed category becomes the selection. "All" removes the parameter, any other sets it, and every other parameter is kept |
| ProductsPage.ChoiceSurvivesReload | src/pages/Products.tsx:14-33 | After a choice, re-reading or reopening the URL gives the same category |
| ProductsPage.LinkWithoutCategoryKeepsSelection | src/pages/Products.tsx:18-23 | Navigating to a URL without a category keeps the old selection |
| Constants.ParsePaymentMethod | src/lib/constants.ts:16-20 | Exactly the three codes name a method, and the method found has that code |
| Constants.LabelOf | src/lib/constants.ts:24-28 | The label map is defined exactly on the three codes, with each method's label |
| Constants.PaymentMethodsWellFormed | src/lib/constants.ts:16-28 | Three methods, each read back from its code, with distinct codes and distinct labels |
| Constants.EnumerationsDistinct | src/lib/constants.ts:7-44 | Four distinct statuses, and eight distinct categories with "All" first |
| Constants.FormatPrice | src/lib/constants.ts:48-50 | A formatted price starts with the taka sign "৳" |
| Constants.FormatPriceRoundTrip | src/lib/constants.ts:48-50 | With the grouping commas taken out, the text after the sign reads back as the price, for any grouping |
| Constants.SmallPricesHaveNoSeparator | src/lib/constants.ts:48-50 | Below 1000 the price is the sign followed by its plain digits |
| Constants.GroupingsOfSevenDigits | src/lib/constants.ts:49 | Western grouping writes 1234567 as 1,234,567; South Asian grouping writes it as 12,34,567 |
| Uploads.CheckImage | src/pages/admin/AdminProducts.tsx:89-99 | Accepted exactly when the MIME type starts with "image/" and the size is at most the limit. A non-image is reported before its size. The banner page applies the same check with 10 MiB (src/pages/admin/AdminBanners.tsx:90-98) |
| Uploads.LimitIsInclusive | src/pages/admin/AdminBanners.tsx:95 | An image of exactly the limit is accepted, and one byte more is refused |

## Left out

- The cart store (`src/context/CartContext.tsx`) is not part of this model. The cart reaches checkout as a list of entries, and its total arrives as a parameter.
- Network I/O: every backend query, insert, update, delete, storage upload and public-URL call is a parameter (success flag, `Result`, or returned rows). The backend's own filtering and ordering is not modelled: the carousel's active-and-sorted query, and the newest-first and ordering clauses of list fetches.
- Deleting a user does not model the backend's cascade to that user's orders; the confirm text promises it, but the schema does it.
- Time and randomness: `Date.now()` is the parameter `now`, and `Math.random()` is the parameter `r`. Upload file names, the five-second auto-slide timer, animations and toasts are left out.
- `FileReader` reading a review image: the data URL is a parameter.
- Floating point: prices, stock and quantities are integers. Ratings are exact reals. `Math.round` of the discounted price is exact rounding half up on integers. `toFixed(1)` is not modelled.
- `Number()` parses an optional sign and decimal digits with surrounding whitespace. Decimal points, exponents and hexadecimal input are not modelled.
- Constants.FormatPrice: the grouping `toLocaleString("en-BD")` uses depends on the runtime's locale data, so it is a parameter. Two groupings are named (3-3 and 3-2). Negative zero, fractions and non-Latin digits are not modelled.
- Case mapping is ASCII-only, and string lengths count characters, not UTF-16 code units.
- `JSON.parse` of the saved user: storage holds either a user written by the app or plain text, and plain text restores no user. A malformed value, which would throw in the original, is not modelled.
- The catch branches that only show a message ("Login failed", "Registration failed", "Something went wrong", "Verification failed") are left out. Each of them leaves the state as it was.
- Carousel.Next and Carousel.Prev require at least one banner: the page calls them only with two or more.
- Carousel.Step ignores a dot press outside the banners. The page renders dots only for indices that exist.
- ForgotPassword.VerifyOtp: the result of marking the code used is ignored by the page. It is the parameter `markOk`, and single use is proved only when the update applies.
- Plain-text password comparison and the unused hard-coded admin credentials in `src/lib/constants.ts` are left as they are.
- Presentation and routing files (home sections, layout, navigation bar, contact page, product grid query) are not modelled.

## Findings

React renders the number 0 when a JSX `{a && b}` condition evaluates to 0, so the first three conditions put a stray "0" on the page. The fourth row is the registration check.

| source | as written | input that shows it | evidently intended | confidence | as-written member | corrected member |
|---|---|---|---|---|---|---|
| src/components/products/ProductCard.tsx:100 | `discount_percentage && discount_percentage > 0 && original_price && (...)`; the product page repeats it at src/pages/ProductDetail.tsx:156 | a product with discount 0, or with discount 10 and original price 0 | show the badge only for a positive discount with an original price, and nothing otherwise | high (not executed) | ProductCard.ZeroDiscountShowsStrayZero | ProductCard.DiscountSlot |
| src/pages/admin/AdminDashboard.tsx:199 | `stats?.pendingOrders && stats.pendingOrders > 0 && (...)` | a dashboard with no pending orders | show the alert only when some order is pending | high (not executed) | Dashboard.NoPendingShowsStrayZero | Dashboard.PendingAlert |
| src/pages/admin/AdminProducts.tsx:279 | `form.original_price && form.discount_percentage > 0 && (...)` | original price typed as "0" | show the discounted-price hint only for a positive original price | high (not executed) | AdminProducts.ZeroOriginalPriceShowsStrayZero | AdminProducts.DiscountHint |
| src/context/AuthContext.tsx:73 | the existence check reads the phone with `.single()`, which answers with an error, and so no row, when two rows hold it | a phone already held by two rows | refuse any phone that is already registered, as the check's message says | high (not executed) | Auth.DuplicatePhoneIsNotSeen | Auth.Register |

One more behaviour is modelled as written but not corrected, because the intent is not evident:

- After a revenue reset, the customer orders page shows each order's line sum instead of the zeroed total (Dashboard.ResetOrderShowsLineSum).
