# Comment wall: a Dafny model

This project models the logic of a two-screen event app. On the first screen a visitor
submits a short comment, with an optional name. On the second, a wall shows the
comments as floating bubbles. Three pieces of sequential code are modelled and proved:

- **Bubble layout** (`WallLayout`, from `src/app/wall/page.tsx`).
  - Each comment's display text is `name：comment`, or just the comment when the name is empty or absent.
  - The text's length, counted in UTF-16 code units as JavaScript counts it, gives a saturating pixel width and height.
  - A cursor packs the bubbles left to right from a 40 px margin. It wraps back to that margin when the next bubble and its 20 px gap would cross `screenWidth − 40`.
  - The result maps each comment id to `left` (the centre as a percentage of the screen width), `width` and `height`.
  - A second pass adds an animation duration and delay from each comment's index.
  - `CalculateNonOverlappingPositions` and `BubbleLayout` are loops proved equal to the functions `PositionMap` and `BubbleMap`. Lemmas then prove bounds, non-overlap within a row, wrap behaviour and per-id contents about those functions.
- **Local fallback store** (`MockStore`, from `src/lib/mockStore.ts`).
  - A `CommentStore` class holds the storage slot, the subscriber list, a log of every callback invocation and a count of broadcast messages.
  - `AddComment` trims its input and prepends the new comment. It caps the list at 500, writes it, and hands every subscriber exactly the written list.
  - `SubscribeComments` registers a callback and calls it at once. `Unsubscribe` filters that callback out.
- **Submit form** (`SubmitForm`, from `onSubmit` in `src/app/page.tsx`).
  - A `Form` class holds the five state cells and a log of the calls made to the store.
  - The handler is split at its `await`. `BeginSubmit` validates and starts the call. `FinishSubmit` takes the add operation's outcome as a parameter. `OnSubmit` runs the two in sequence.

`Comments` holds what the three share: the comment record, JavaScript's `trim` (with its exact
white-space set), UTF-16 length and the display text.

Facts about the code that the model keeps as they are:

- `left` is computed by dividing by `screenWidth` with no check (src/app/wall/page.tsx:40). A zero width gives +Infinity. `Percent` represents that case as a zero denominator.
- `left` is guaranteed to lie in (0, 100) for a bubble that fitted without wrapping (`FittedLeftInsideScreen`). A wrapped bubble restarts at the 40 px margin (src/app/wall/page.tsx:35-40), so its centre lies between 103 and 250 px whatever the screen width. Its `left` exceeds 100 on a screen narrower than that centre (`WrappedCentre`, `NarrowScreenOverflows`).
- `addComment` does not reject a blank comment (src/lib/mockStore.ts:41-48). Only the form does (src/app/page.tsx:18, `SubmitForm.Form.BeginSubmit`).
- The wall runs two independent effects (src/app/wall/page.tsx:54-71): one fetches the list and one subscribes. Nothing orders them, and nothing marks newly arrived comments. Each delivery replaces the whole list.
- Sizing takes `Math.max(1, text.length)` and rounds the height down (src/app/wall/page.tsx:23-26). `text.length` counts UTF-16 code units, so an emoji counts as two.

## Model

| member | source | states |
|---|---|---|
| `Comments.StartIndex` | src/lib/mockStore.ts:47 | where `trim` starts: every character before the index is white space, and the one at it is not |
| `Comments.EndIndex` | src/lib/mockStore.ts:47 | where `trim` stops: every character from the index on is white space, and the one before it is not |
| `Comments.Trim` | src/lib/mockStore.ts:46-47 | `trim` is no longer than its input, and a non-empty result begins and ends with a character that is not white space |
| `Comments.TrimEmptyIffBlank` | src/lib/mockStore.ts:46-47 | `trim` gives the empty string exactly when the input is all white space |
| `Comments.TrimSlice` | src/lib/mockStore.ts:47 | `trim` gives the slice of the input that starts where the leading white space ends, and only white space lies on either side of it |
| `Comments.TrimIdempotent` | src/lib/mockStore.ts:47 | trimming twice is trimming once |
| `Comments.Utf16Length` | src/app/wall/page.tsx:24 | `text.length` counts UTF-16 code units: between the number of characters and twice that |
| `Comments.Utf16LengthConcat` | src/app/wall/page.tsx:23-24 | the length of a concatenation is the sum of the lengths |
| `Comments.DisplayText` | src/app/wall/page.tsx:23 | the text ends with the comment; it is longer than the comment iff the name is truthy, and then it is the name, the full-width colon and the comment |
| `Comments.DisplayTextLength` | src/app/wall/page.tsx:23-24 | the display length is the comment's, plus the name's and 1 for the separator when the name is shown (the same text is rendered at line 137) |
| `WallLayout.SizingLength` | src/app/wall/page.tsx:24 | the sizing length is at least 1 |
| `WallLayout.SizingLengthCounts` | src/app/wall/page.tsx:23-24 | the sizing length is at least the comment's length; without a truthy name it is `max(1, comment length)`, and with one it is name + 1 + comment |
| `WallLayout.Width` | src/app/wall/page.tsx:25 | every width lies in [126, 420] and equals 420 exactly when the length is 50 or more |
| `WallLayout.Height` | src/app/wall/page.tsx:26 | every height lies in [52, 140] and equals 140 exactly when the length is 98 or more |
| `WallLayout.WidthMonotone` | src/app/wall/page.tsx:25 | a longer text never gets a narrower bubble |
| `WallLayout.HeightMonotone` | src/app/wall/page.tsx:26 | a longer text never gets a lower bubble |
| `WallLayout.Widths` | src/app/wall/page.tsx:22-28 | one width per comment, each in [126, 420] |
| `WallLayout.CursorAfter` | src/app/wall/page.tsx:31-45 | the cursor starts at 40 and only grows or resets to 40, so it is never below 40; after a bubble it lies at least that bubble's width plus the 20 px gap past the margin |
| `WallLayout.LeftEdge` | src/app/wall/page.tsx:33-40 | a bubble is placed either at the 40 px margin or where it and its 20 px gap end by `screenWidth - 40` |
| `WallLayout.LeftEdgeAtLeastMinLeft` | src/app/wall/page.tsx:18-37 | no bubble's left edge is below the 40 px margin |
| `WallLayout.FitsOrWraps` | src/app/wall/page.tsx:35-37 | a bubble either fits (`x + width + 20 <= screenWidth - 40`) or was wrapped and placed at 40 |
| `WallLayout.CursorAfterStep` | src/app/wall/page.tsx:45 | after a bubble the cursor is its left edge plus its width plus the 20 px gap |
| `WallLayout.NextLeftEdge` | src/app/wall/page.tsx:40-45 | without a wrap the next bubble starts one gap after the previous right edge, so neighbouring centres are `(w_i + w_j)/2 + 20` apart; with a wrap it starts at 40 |
| `WallLayout.NoOverlapWithinRow` | src/app/wall/page.tsx:33-46 | bubbles in the same row (no wrap between them) never overlap horizontally |
| `WallLayout.PositionAt` | src/app/wall/page.tsx:40-42 | a comment's position has width in [126, 420], height in [52, 140], and `left` is a fraction over `screenWidth` |
| `WallLayout.FittedLeftInsideScreen` | src/app/wall/page.tsx:40 | a bubble that fitted on a screen of positive width has `0 < left < 100` |
| `WallLayout.WrappedCentre` | src/app/wall/page.tsx:35-40 | a wrapped bubble is centred between 103 and 250 px, whatever the screen width |
| `WallLayout.NarrowScreenOverflows` | src/app/wall/page.tsx:16-40 | on a 100 px screen a one-letter comment gets `left = 103`, outside [0, 100] |
| `WallLayout.AssignKeys` | src/app/wall/page.tsx:42 | filling a map with `map.set(id, value)` in order gives exactly the comments' ids as keys |
| `WallLayout.AssignLatest` | src/app/wall/page.tsx:42 | the entry of an id holds the value of the last comment with that id |
| `WallLayout.PositionMap` | src/app/wall/page.tsx:12-49 | the position map has an entry for every comment's id and no other |
| `WallLayout.PositionMapLatest` | src/app/wall/page.tsx:33-46 | the entry of the last comment with an id is that comment's position: `left = (x + width/2) / screenWidth * 100`, its width and its height |
| `WallLayout.CalculateNonOverlappingPositions` | src/app/wall/page.tsx:12-49 | the cursor loop computes exactly `PositionMap` |
| `WallLayout.Duration` | src/app/wall/page.tsx:93 | every duration is one of 15, 17, 19, 21, 23 seconds |
| `WallLayout.DurationPeriodic` | src/app/wall/page.tsx:93 | durations repeat every five indices |
| `WallLayout.Delay` | src/app/wall/page.tsx:96 | the delay is non-negative and is half the index |
| `WallLayout.DelayIncreasing` | src/app/wall/page.tsx:96 | delays strictly increase with the index |
| `WallLayout.BubbleMap` | src/app/wall/page.tsx:88-105 | a bubble exists only for an id that has a position, and it carries that position's left, width and height |
| `WallLayout.BubbleMapKeys` | src/app/wall/page.tsx:88-105 | the layout map has an entry exactly for the ids that have a position |
| `WallLayout.BubbleMapLatest` | src/app/wall/page.tsx:88-105 | the layout entry of the last comment with an id is its position with the duration and delay of its index |
| `WallLayout.BubbleLayoutKeys` | src/app/wall/page.tsx:74-107 | every comment's id gets a bubble, and no other id does |
| `WallLayout.BubbleLayoutLatest` | src/app/wall/page.tsx:74-107 | the bubble of the last comment with an id has that comment's left, width and height and its index's duration and delay |
| `WallLayout.BubbleLayout` | src/app/wall/page.tsx:74-107 | the indexed loop computes exactly `BubbleMap` over `PositionMap` |
| `MockStore.DecimalString` | src/lib/mockStore.ts:44 | a timestamp is written as a non-empty string of decimal digits with no leading zero |
| `MockStore.DecimalRoundTrip` | src/lib/mockStore.ts:44 | the digits written for a timestamp denote that timestamp |
| `MockStore.DecimalStringInjective` | src/lib/mockStore.ts:44 | different timestamps are written differently |
| `MockStore.NewIdStartsWithTimestamp` | src/lib/mockStore.ts:42-44 | a new id begins with the digits of `now`, which end at its first dash and denote `now` |
| `MockStore.TrimmedName` | src/lib/mockStore.ts:46 | a stored name is the trimmed name and is never empty |
| `MockStore.TrimmedNameKept` | src/lib/mockStore.ts:46 | the name is stored exactly when it is present and not all white space; otherwise the comment is anonymous |
| `MockStore.NewItem` | src/lib/mockStore.ts:43-48 | the new comment has `createdAt = now`; its text is no longer than the input and, when not empty, begins and ends with a character that is not white space; a kept name was given, is not empty and is no longer than the input name |
| `MockStore.Prepend` | src/lib/mockStore.ts:49 | the new list has length `min(old + 1, 500)`, starts with the new comment, and continues with the old ones in order |
| `MockStore.PrependDropsOnlyOverflow` | src/lib/mockStore.ts:49 | below 500 nothing is dropped; at 500 only the oldest comment is |
| `MockStore.Without` | src/lib/mockStore.ts:61 | the filter never lengthens the list |
| `MockStore.WithoutMultiset` | src/lib/mockStore.ts:61 | the filter removes every registration of the callback and keeps every other one with its multiplicity |
| `MockStore.WithoutConcat` | src/lib/mockStore.ts:61 | the filter distributes over concatenation, so the remaining subscribers keep their relative order |
| `MockStore.WithoutAbsent` | src/lib/mockStore.ts:61 | removing a callback that is not registered changes nothing |
| `MockStore.Deliveries` | src/lib/mockStore.ts:54 | notifying makes one delivery per subscriber |
| `MockStore.DeliveriesAt` | src/lib/mockStore.ts:54 | notifying hands each subscriber, in registration order, exactly the given list |
| `MockStore.UnsubscribedNotNotified` | src/lib/mockStore.ts:54-62 | after unsubscribing, a callback receives nothing from a later notification, while every other registered callback still does |
| `MockStore.CommentStore.constructor` | src/lib/mockStore.ts:25-35 | a fresh store has no subscribers and no invocations; a broadcast channel exists only in a browser |
| `MockStore.CommentStore.ReadFromStorage` | src/lib/mockStore.ts:10-18 | reading gives the stored list, or the empty list outside a browser, when nothing is stored, or when the text fails to parse |
| `MockStore.CommentStore.GetComments` | src/lib/mockStore.ts:37-39 | `getComments` returns what reading the storage gives |
| `MockStore.CommentStore.WriteToStorage` | src/lib/mockStore.ts:20-23 | in a browser the list is stored and reads back unchanged; elsewhere nothing changes |
| `MockStore.CommentStore.NotifyAll` | src/lib/mockStore.ts:54 | the loop appends one invocation per subscriber, in order, each with the same list |
| `MockStore.CommentStore.AddComment` | src/lib/mockStore.ts:41-55 | in a browser the stored list becomes `Prepend(NewItem(...), old list)`: the new comment (trimmed text and name, `createdAt = now`, id `now-suffix`) followed by the old list, cut to 500; outside a browser storage is untouched; one message is posted when a channel exists; every subscriber receives exactly the written list, in registration order |
| `MockStore.CommentStore.SubscribeComments` | src/lib/mockStore.ts:57-63 | the callback is appended to the subscribers and invoked once, at once, with the current stored list; the handle names it |
| `MockStore.CommentStore.Unsubscribe` | src/lib/mockStore.ts:60-62 | the subscribers become the old list without the callback |
| `MockStore.CommentStore.OnBroadcast` | src/lib/mockStore.ts:26-34 | the handler exists only when a broadcast channel was opened; a `comments_updated` message re-reads the storage and hands it to every subscriber; any other message does nothing |
| `SubmitForm.IsSubmittable` | src/app/page.tsx:18 | the form accepts a comment exactly when it is not all white space |
| `SubmitForm.SubmittableIffVisibleChar` | src/app/page.tsx:18 | a comment is accepted exactly when it has a character that is not white space |
| `SubmitForm.AcceptedSubmissionStored` | src/app/page.tsx:25 | the form passes the raw fields; after the store trims them, an accepted comment is stored non-empty and a blank name is stored as absent (the document store's add, src/lib/firestore.ts:30-31, trims the same way and stores an absent name as null) |
| `SubmitForm.Form.constructor` | src/app/page.tsx:8-12 | the form starts with empty fields, not sending, no error, not done |
| `SubmitForm.Form.BeginSubmit` | src/app/page.tsx:16-25 | the error is cleared; a blank comment sets the "enter a comment" message and leaves the fields, `sending` and the store untouched; otherwise `sending` is set and the store receives the untrimmed name and comment; the name is never checked |
| `SubmitForm.Form.FinishSubmit` | src/app/page.tsx:25-36 | success clears both fields and sets `done`; failure sets the retry message and keeps the fields; `sending` ends false either way |
| `SubmitForm.Form.OnSubmit` | src/app/page.tsx:14-39 | the whole handler: rejected without a store call on a blank comment, otherwise exactly one store call with the raw fields, then the success or failure state with `sending` false |

## Left out

- `src/lib/firebase.ts` and `src/lib/firestore.ts` are not part of this model. They are configuration and thin wrappers over the document store's SDK. Ordering by `createdAt` and the `limit` cap come from the remote store. The form's add operation is therefore an outcome parameter of `SubmitForm.Form.OnSubmit`.
- All JSX, styling and animation are left out. This includes the `done` overlay's click handler, the input `onChange` bindings and the `setTimeout` that clears `done` after 10 s, which is a wall-clock timer.
- The wall's two effects are left out. They are the live subscription and the initial fetch (`src/app/wall/page.tsx:54-71`). Both only replace the list with a store delivery.
- `window.innerWidth` is the parameter `screenWidth`. Its 1920 fallback applies only outside a browser.
- Floating point is not modelled. `left` is kept as the exact fraction `(2x + width)·50 / screenWidth`. `Math.floor(len * 0.9)` is `(9·len)/10`. The two cannot differ before the height saturates, because the double nearest 0.9 lies just above 0.9.
- `Date.now()` and `Math.random()` are parameters of `MockStore.CommentStore.AddComment` (`now`, `suffix`). The suffix's base-36 format is not constrained. Number-to-string for timestamps of 10^21 or more, which uses exponent notation, is not modelled.
- Local storage and JSON are modelled by the `Stored` datatype: `Absent`, `Unparsable` or a parsed list. Stored text that parses to something other than an array is not modelled. `readFromStorage` would return it as it is. `addComment` would then spread a JSON string into its characters, and would throw on `null`, a number, a boolean or a plain object.
- `MockStore.CommentStore.WriteToStorage`: a failing `localStorage.setItem` (for example, a full quota) is not modelled. The model always succeeds in a browser.
- Subscriber callbacks are modelled by their identity and a log of invocations. What a callback does when called is not modelled. A callback that throws, and so stops the remaining notifications, is left out. So is a callback that re-enters the store.
- Cross-tab delivery of broadcast messages is left out. The model counts the messages posted and handles a received message in `MockStore.CommentStore.OnBroadcast`.
- React's state batching and re-rendering are not modelled. The form's fields are read and written directly.
- `MockStore.CommentStore.AddComment`: `now` is a `nat`, so a negative `Date.now()`, which would give an id starting with `-`, is not modelled.
- `Comments.Utf16Length`: a Dafny `char` cannot hold a lone surrogate. A JavaScript string can carry one, and `.length` counts it as 1. Such strings are not modelled.
