# Cart store and route guard of a food-delivery app

A Dafny model of the two pieces of local logic in a React Native
food-delivery storefront:

- the in-memory **shopping cart** kept by `CartProvider`
  (`context/CartContext.tsx`): one state cell holding the list of cart
  lines, four mutators that replace it (`addToCart`, `removeFromCart`,
  `updateQuantity`, `clearCart`), and two derived sums, `total` (price
  times quantity) and `count` (units);
- the **authentication route guard** of `InnerLayout` (`app/_layout.tsx`),
  which decides whether to send the user to `/login`, to `/(tabs)`, or
  nowhere.

Files:

- `wrappers.dfy` — module `Wrappers`: the `Option` type.
- `cart_lines.dfy` — module `CartLines`: the `CartItem` and `Product`
  records, the list transformations the mutators apply (`find`, `map`,
  `filter`, `reduce` as functions over `seq<CartItem>`), the cart
  invariant `Valid` (unique ids, every quantity at least 1) and the lemmas
  about them. `CartAction`/`Replay` describe any sequence of mutator calls.
- `cart_context.dfy` — module `CartContext`: class `CartStore`, whose
  field `items` is the state cell; each mutator is a method that replaces
  `items` with the corresponding `CartLines` function of its old value and
  keeps the invariant.
- `route_guard.dfy` — module `RouteGuard`: the redirect decision as a
  function returning an optional target.

Modelling choices:

- Prices are integer cents and quantities and deltas are integers; the
  source uses JavaScript numbers (floats).
- `reduce` sums from the left and the model sums from the right; for
  integers the result is the same.
- The session is reduced to whether one exists; the route is its list of
  segments, and a route with no segments is outside the auth group, as
  `segments[0]` is then `undefined`.

Behaviour worth knowing:

- `updateQuantity` on an absent id still runs its `filter`, which drops any
  other line whose quantity is not positive. It is therefore a no-op only
  on a cart whose quantities are all positive (`UpdateAbsent`), and every
  reachable cart is one (`ReplayPreservesValid`).
- The `map` of `addToCart` bumps every line carrying the id; only with
  unique ids, which every reachable cart has, is that exactly one line.
- The route guard runs again whenever the route segments change, and
  `recovery` is not in its auth group: a signed-out user who opens the
  password-recovery screen is sent back to `/login`
  (`RecoveryRedirectsToLogin`).

## Model

| member | source | states |
|---|---|---|
| `CartLines.FindIndex` | context/CartContext.tsx:39 | finds a line exactly when some line carries the id; the position found holds that id and no earlier line does |
| `CartLines.Count` | context/CartContext.tsx:72 | `count` sums the quantities; when every quantity is at least 1 it is at least the number of lines |
| `CartLines.CountZeroIffEmpty` | context/CartContext.tsx:72 | with every quantity at least 1, `count` is 0 exactly when the cart is empty |
| `CartLines.Total` | context/CartContext.tsx:71 | `total` sums price times quantity; with no negative price and every quantity at least 1 it is not negative |
| `CartLines.Filter` | context/CartContext.tsx:52 | `filter` never lengthens the list and every line it keeps passes the callback |
| `CartLines.FilterMembers` | context/CartContext.tsx:63 | a line is in the filtered list exactly when it is in the list and passes the callback |
| `CartLines.Increment` | context/CartContext.tsx:41-45 | the `map` of `addToCart` keeps the length and every field but the quantity; each line carrying the id gains exactly 1, every other line is returned unchanged, and with the id absent the list is unchanged |
| `CartLines.AddTo` | context/CartContext.tsx:38-48 | after `addToCart` a line carries the id; the list grows by one exactly when the id was absent; the old lines keep every field but their quantity, in place |
| `CartLines.AddAbsent` | context/CartContext.tsx:37-49 | adding an id not in the cart appends one line of quantity 1 at the end, the old lines unchanged and in order; `count` rises by 1 and `total` by the product's price |
| `CartLines.AddPresent` | context/CartContext.tsx:39-45 | adding an id already at line `k` (unique ids) keeps length and order, adds exactly 1 to that line, which keeps its own name, price, image and restaurant, changes no other line; `count` rises by 1 and `total` by that line's price |
| `CartLines.AddCount` | context/CartContext.tsx:37-48 | with unique ids, every `addToCart` raises `count` by exactly 1 |
| `CartLines.AddPreservesValid` | context/CartContext.tsx:37-48 | `addToCart` keeps ids unique and every quantity at least 1 |
| `CartLines.AddTwice` | context/CartContext.tsx:37-48 | on any cart without the id, adding the same product twice yields one line, of quantity 2, at the end |
| `CartLines.RemoveId` | context/CartContext.tsx:51-53 | after `removeFromCart` no line carries the id, and a line is kept exactly when it was present with another id |
| `CartLines.RemoveAbsent` | context/CartContext.tsx:52 | removing an absent id leaves the cart unchanged |
| `CartLines.RemoveIdempotent` | context/CartContext.tsx:52 | removing the same id twice is the same as removing it once |
| `CartLines.RemoveAt` | context/CartContext.tsx:52 | with unique ids, removing the id of line `k` removes exactly that line and keeps the others in their order |
| `CartLines.RemoveSums` | context/CartContext.tsx:51-53 | with unique ids, removing line `k` lowers `count` by its quantity and `total` by its price times quantity |
| `CartLines.RemovePreservesValid` | context/CartContext.tsx:51-53 | `removeFromCart` keeps ids unique and every quantity at least 1 |
| `CartLines.Adjust` | context/CartContext.tsx:57-62 | the `map` of `updateQuantity` keeps the length and every field but the quantity; a line carrying the id gets exactly max(0, q + delta), and every other line is returned unchanged |
| `CartLines.UpdateQuantityOf` | context/CartContext.tsx:55-65 | after `updateQuantity` every line has quantity at least 1, there are no more lines than before, and every id was already in the cart (no line is created) |
| `CartLines.UpdateAbsent` | context/CartContext.tsx:57-63 | on an absent id a cart whose quantities are all positive is unchanged |
| `CartLines.UpdateAt` | context/CartContext.tsx:57-63 | on line `k` of a valid cart: its quantity becomes max(0, q + delta), the line is removed when that is 0, the other lines are unchanged and in order |
| `CartLines.UpdateCount` | context/CartContext.tsx:55-72 | on a valid cart, `updateQuantity` on line `k` changes `count` from q to max(0, q + delta) for that line alone |
| `CartLines.UpdateTotal` | context/CartContext.tsx:55-71 | on a valid cart, `updateQuantity` on line `k` replaces that line's share of `total` by price times max(0, q + delta) |
| `CartLines.DecrementLastRemoves` | context/CartContext.tsx:59-63 | on a valid cart, a delta of -1 on a line of quantity 1 removes that line and no other |
| `CartLines.UpdatePreservesValid` | context/CartContext.tsx:55-65 | `updateQuantity` keeps ids unique and every quantity at least 1 |
| `CartLines.ApplyPreservesValid` | context/CartContext.tsx:37-69 | each of the four mutators keeps the cart invariant |
| `CartLines.ReplayPreservesValid` | context/CartContext.tsx:35-72 | from a valid cart (the initial empty one included) any sequence of mutator calls keeps unique ids and quantities of at least 1, and `count` is at least the number of lines |
| `CartContext.CartStore.constructor` | context/CartContext.tsx:35 | the store starts with an empty, valid cart |
| `CartContext.CartStore.Count` | context/CartContext.tsx:72 | the derived `count` of the current items is at least the number of lines when every quantity is positive |
| `CartContext.CartStore.Total` | context/CartContext.tsx:71 | the derived `total` of the current items is 0 on an empty cart and not negative when no price is negative and every quantity is positive |
| `CartContext.CartStore.AddToCart` | context/CartContext.tsx:37-49 | replaces `items` by the `addToCart` transformation of the old items; keeps the invariant and raises `count` by 1 |
| `CartContext.CartStore.RemoveFromCart` | context/CartContext.tsx:51-53 | replaces `items` by the old items without the id; no line with the id remains; keeps the invariant |
| `CartContext.CartStore.UpdateQuantity` | context/CartContext.tsx:55-65 | replaces `items` by the `updateQuantity` transformation of the old items; every quantity is then positive; keeps the invariant |
| `CartContext.CartStore.ClearCart` | context/CartContext.tsx:67-69 | empties the cart; `count` and `total` are then 0 |
| `RouteGuard.Redirect` | app/_layout.tsx:24-34 | while loading, no redirect; `/login` (`PathOf(Login)`) exactly when signed out outside `login`/`signup`; `/(tabs)` exactly when signed in on `login`/`signup`; otherwise none |
| `RouteGuard.RecoveryRedirectsToLogin` | app/_layout.tsx:27-30 | a signed-out user on `recovery` is sent to `/login`, as it is outside the auth group |
| `RouteGuard.RedirectSettles` | app/_layout.tsx:27-33 | on any route whose first segment is that of the target the guard chose (`login` or `(tabs)`), with the same session, it issues no further redirect |

## Left out

- Floating-point prices and totals: prices are integer cents, so `total` is exact; rounding of JavaScript number sums is not modelled.
- Non-integer quantities and deltas are not modelled; the screens only pass deltas of +1 and -1.
- React plumbing: `useState`, the functional form of `setItems` and its batching, the context provider; each mutator is modelled as one atomic replacement of `items`.
- The `router.replace` call and the effect's re-run on changes of `session`, `loading` and `segments`; only the decision is modelled.
- The coupon discount, delivery fee and order total of the cart screen (app/(tabs)/cart.tsx) are not part of this model.
- Remote data and checkout (context/DatabaseContext.tsx) and the session lifecycle (context/AuthContext.tsx) are calls into the hosted backend and are not part of this model.
- The sign-in, sign-up and recovery screens are user interface with only empty-field checks before a remote call, and the favourites screen renders a fixed list; none is part of this model.
