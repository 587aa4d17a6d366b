# Connect-the-numbers captcha: a verified model of the interaction engine

This project models the core of a "connect the numbers" captcha. A random shape from a
fixed catalog is laid out on a square canvas as numbered nodes. The user must trace the nodes
in ascending order in one stroke and then press verify. The model covers:

- the shape catalog (`Shapes`);
- the layout generator, the hit tester and the order-preserving de-duplicator (`Utils`);
- the touch-move rule that both components share (`Gesture`);
- the newer gesture/verification state machine, `components/captcha/index.tsx` (`CaptchaSession.Captcha`);
- the older state machine that the app actually mounts, `components/Captcha.tsx` (`LegacyCaptcha.Captcha`);
- the feedback message policy and banner conditions (`Feedback`).

A few modelling choices:

- Coordinates are Dafny `real`s.
- The random draws are parameters: `pick` chooses the shape, and one `Draw(rx, ry)` per point gives the jitter.
- A path is a sequence of `MoveTo`/`LineTo` commands instead of an SVG string.
- The path tint is the enum `Neutral | Success | Failure`.
- Each React state variable is a field of the class. Each handler is a method that runs against
  the state committed by the previous event. A read such as `connectedOrder.includes(...)` sees
  the order from before the handler's own updates.
- Each `setTimeout` callback is its own method. `Verify` returns the callback it schedules, as a
  `Pending` value holding what the closure captured. The callback methods can be called in any
  state, because the source never cancels its timers.

`components/Captcha.tsx:40-61` and `components/Captcha.tsx:146-154` are textual copies of
`generateNumbers` and `checkCollision` in `components/captcha/utils.ts`. Both components use the
same `Utils.GenerateNumbers` and `Utils.CheckCollision`. Their touch-move code is also identical,
so both use `Gesture.ExtendOrder`.

The key class invariant is `Valid()`. It says the layout has ids 1..N with N >= 1, and the
connected order is always `[1..k]` for some `k <= N`. Every handler, callback and reset of both
components keeps it. On such orders, verification reduces to "k == N". The missed list is then
exactly `[k+1..N]`.

Behaviour of the code worth noting:

- The newer touch-start does not clear the missed list or the missed banner.
- The newer touch-start checks `!connectedOrder.includes(1)` against the order from before the call.
  So restarting on node 1 right after a stroke that visited node 1 connects nothing.
  This is proved in `CaptchaSession.StartOrderOnPrefix` and shown in `Scenarios.NewerRestartOnOne`.
- The newer verify shows the success banner at once (`components/captcha/index.tsx:122`), not after the verifying delay.
- The older component, which the app mounts, keeps the path and the order across strokes. It compares without de-duplication. It computes no missed list. It never resets the layout after a success.

## Model

| member | source | states |
|---|---|---|
| `Types.CanvasWidth` | components/captcha/types.ts:15-21 | the canvas side is the smaller of 90% of the window width and 400 |
| `Shapes.Catalog` | constants/Shapes.ts:15-92 | exactly the keys star, infinity, arrow, wave, crown; in every shape `count` equals the number of points and is at least 1, and every coordinate lies in [0.1, 0.9]; the counts are 10, 11, 7, 9, 8 |
| `Shapes.ShapeAt` | constants/Shapes.ts:15-92 | the shape at each key position is well formed |
| `Shapes.CatalogAt` | constants/Shapes.ts:15-92 | the i-th key is in the catalog and its entry is the shape at position i |
| `Shapes.CatalogHasFiveShapes` | constants/Shapes.ts:15-92 | the key list has five distinct names and the catalog has five entries |
| `Utils.ShapeIndex` | components/captcha/utils.ts:5-8 | `floor(random * 5)` is a valid catalog index and is the floor of pick * 5 |
| `Utils.PickedShape` | components/captcha/utils.ts:5-8 | the shape chosen for any random pick is well formed, so every layout is non-empty |
| `Utils.PickedShapeInCatalog` | components/captcha/utils.ts:5-8 | the chosen shape is the catalog entry under the key at index `floor(random * 5)` |
| `Utils.JitterRange` | components/captcha/utils.ts:12-17 | the jitter of a random draw lies in [-0.025, 0.025) |
| `Utils.PlaceInCanvas` | components/captcha/utils.ts:11-20 | a unit coordinate with jitter, placed with margin 2 * NUMBER_RADIUS on a canvas of side 80..400, lies in [NUMBER_RADIUS, side - NUMBER_RADIUS] |
| `Utils.LayoutProperties` | components/captcha/utils.ts:14-22 | the layout has `count` nodes with ids 1..count in point order, each coordinate is `(p + j) * (W - 2m) + m`, and on an admissible canvas every node lies inside it |
| `Utils.GenerateNumbers` | components/captcha/utils.ts:4-25 | the push loop produces exactly the layout of the picked shape: at least one node, ids 1..count, each node inside an admissible canvas |
| `Utils.FirstHitFrom` | components/captcha/utils.ts:32-38 | no result iff no node from position k on is strictly within the radius; a result is within the radius and every node before it is not |
| `Utils.CheckCollision` | components/captcha/utils.ts:27-39 | the early-return scan returns null iff no node is strictly within NUMBER_RADIUS, and otherwise the first such node in list order |
| `Utils.FirstHitInLayout` | components/captcha/utils.ts:32-36 | a hit node belongs to the layout, so its id is in 1..N |
| `Utils.BoundaryNeverHits` | components/captcha/utils.ts:34 | a pointer at distance exactly NUMBER_RADIUS from a node never selects that node |
| `Utils.CentreAlwaysHits` | components/captcha/utils.ts:32-36 | a pointer on a node's centre always hits, and it hits that node or one listed before it |
| `Utils.FirstMatchNotNearest` | components/captcha/utils.ts:32-36 | with overlapping circles the earlier node wins, even when the pointer is nearer the later node |
| `Utils.RemoveDuplicates` | components/captcha/utils.ts:41-48 | the filter with its `seen` set computes the keep-first-occurrence reference; its output has no duplicates and the same elements as its input |
| `Utils.DedupSameElements` | components/captcha/utils.ts:41-48 | de-duplication keeps exactly the set of input elements |
| `Utils.DedupNoDuplicates` | components/captcha/utils.ts:41-48 | the output contains no value twice |
| `Utils.DedupSubsequence` | components/captcha/utils.ts:41-48 | the output is a subsequence of the input |
| `Utils.DedupFirstOccurrenceOrder` | components/captcha/utils.ts:41-48 | output order is the order of first occurrences in the input |
| `Utils.DedupIdentity` | components/captcha/utils.ts:41-48 | on duplicate-free input de-duplication is the identity |
| `Utils.DedupIdempotent` | components/captcha/utils.ts:41-48 | de-duplicating twice equals de-duplicating once |
| `Gesture.ExtendOrder` | components/captcha/index.tsx:76-82 | a move either leaves the order alone or appends the hit id, and only when that id is absent and equals the last id + 1; an empty order is never extended |
| `Gesture.ExtendOrderKeepsPrefix` | components/captcha/index.tsx:76-82 | on an order [1..k] a move keeps it a prefix of the layout's ids, and grows it to [1..k+1] exactly when k >= 1 and the move hits node k+1 |
| `CaptchaSession.IdsNoDuplicates` | components/captcha/index.tsx:97-103 | the expected order [1..N] has no duplicates, so cleaning it changes nothing |
| `CaptchaSession.MissedIsDifference` | components/captcha/index.tsx:112-116 | the missed list holds exactly the ids 1..N absent from the order, in strictly ascending order |
| `CaptchaSession.CorrectMissesNothing` | components/captcha/index.tsx:102-116 | a correct verdict means no id in 1..N is missed |
| `CaptchaSession.OutcomeOnPrefix` | components/captcha/index.tsx:97-116 | when the order is [1..k], the verdict is correct iff k == N iff nothing is missed, and the missed list is [k+1..N] |
| `CaptchaSession.DedupVerdictExamples` | components/captcha/index.tsx:102-107 | the de-duplicated comparison accepts [1, 2, 1] for N = 2 and rejects [2, 1] while missing nothing |
| `CaptchaSession.StartOrder` | components/captcha/index.tsx:59-66 | after touch-start the order is [] or [1] |
| `CaptchaSession.StartOrderOnPrefix` | components/captcha/index.tsx:59-66 | the order becomes [1] iff the previous order was empty and the start hits node 1; restarting after any stroke that visited node 1 yields [] |
| `CaptchaSession.Captcha.constructor` | components/captcha/index.tsx:22-31 | the canvas side is `min(window * 0.9, 400)`; the initial state: a generated layout, inside the canvas whenever the side is at least 80, empty paths and order, neutral tint, all flags off, the invariant established |
| `CaptchaSession.Captcha.Reset` | components/captcha/index.tsx:38-51 | a fresh layout, inside the canvas whenever the side is at least 80; path, live path, order and missed list empty; neutral tint; every flag false; invariant kept |
| `CaptchaSession.Captcha.TouchStart` | components/captcha/index.tsx:53-69 | a no-op while verifying; otherwise drawing on, path cleared, live path a single move to the touch point, order per StartOrder, everything else unchanged |
| `CaptchaSession.Captcha.TouchMove` | components/captcha/index.tsx:71-83 | a no-op unless drawing and not verifying; otherwise one line appended to the live path and the order extended by ExtendOrder; the order stays [1..k] |
| `CaptchaSession.Captcha.TouchEnd` | components/captcha/index.tsx:85-91 | a no-op while verifying; otherwise the live path is appended to the path and cleared and drawing ends |
| `CaptchaSession.Captcha.Verify` | components/captcha/index.tsx:93-124 | a no-op while verifying; otherwise verifying on, tint Success iff correct, missed list, missed banner and success banner set from the verdict, the verify-delay callback scheduled; on reachable states success iff k == N, missed == [k+1..N], and the missed banner shows iff the verdict fails |
| `CaptchaSession.Captcha.VerifyDelayElapsed` | components/captcha/index.tsx:137-151 | clears the verifying flag only and schedules the failure clear or the success reset according to the captured verdict |
| `CaptchaSession.Captcha.FailureClearElapsed` | components/captcha/index.tsx:141-144 | hides the missed banner and restores the neutral tint; layout, paths and order are untouched |
| `CaptchaSession.Captcha.SuccessResetElapsed` | components/captcha/index.tsx:145-149 | the success path ends in a full reset with a new layout |
| `LegacyCaptcha.LegacyCorrect` | components/Captcha.tsx:203-208 | the older verdict holds iff the order is exactly [1..N], with no de-duplication |
| `LegacyCaptcha.LegacyVerdictVersusDedup` | components/Captcha.tsx:203-208 | the exact comparison implies the de-duplicated one, and on orders [1..k] both verdicts agree with k == N |
| `LegacyCaptcha.RepeatedIdSplitsVerdicts` | components/Captcha.tsx:207-208 | [1, 2, 1] is accepted by the newer verdict and rejected by the older one |
| `LegacyCaptcha.LegacyStartOrder` | components/Captcha.tsx:169-173 | touch-start leaves the order as it was, except that an empty order can become [1] (only on a start at node 1) |
| `LegacyCaptcha.LegacyStartOrderKeepsPrefix` | components/Captcha.tsx:156-175 | touch-start keeps the order a prefix, never clears it, and sets [1] only from an empty order when the hit node is 1 |
| `LegacyCaptcha.Captcha.constructor` | components/Captcha.tsx:120-132 | the canvas side is `min(window * 0.9, 400)`; the initial state: a generated layout, inside the canvas whenever the side is at least 80, empty paths and order, neutral tint, both flags off |
| `LegacyCaptcha.Captcha.Reset` | components/Captcha.tsx:134-144 | a fresh layout, inside the canvas whenever the side is at least 80; path, live path and order empty; both flags false; neutral tint |
| `LegacyCaptcha.Captcha.TouchStart` | components/Captcha.tsx:156-175 | a no-op while verifying; otherwise drawing on and a fresh live path; the committed path is kept and the order follows LegacyStartOrder |
| `LegacyCaptcha.Captcha.TouchMove` | components/Captcha.tsx:177-189 | a no-op unless drawing and not verifying; otherwise one line appended and the order extended only with last + 1 |
| `LegacyCaptcha.Captcha.TouchEnd` | components/Captcha.tsx:191-197 | a no-op while verifying; otherwise the live path is committed onto the path and cleared |
| `LegacyCaptcha.Captcha.Verify` | components/Captcha.tsx:199-211 | a no-op while verifying; otherwise verifying on and tint Success or Failure by the exact comparison, which on reachable states holds iff k == N |
| `LegacyCaptcha.Captcha.VerifyDelayElapsed` | components/Captcha.tsx:228-237 | clears the verifying flag; only a failed verdict schedules the colour revert, and no layout reset follows success |
| `LegacyCaptcha.Captcha.RevertColorElapsed` | components/Captcha.tsx:233-235 | restores the neutral tint and changes nothing else |
| `Feedback.Message` | components/captcha/FeedbackDisplay.tsx:21-33 | the message is empty exactly when no number is missed |
| `Feedback.ReadMessageInverts` | components/captcha/FeedbackDisplay.tsx:21-33 | reading the message back gives nothing for 0 missed, the id in the singular wording for 1, the ids in the plural wording for 2 or 3, and only the count for more than 3 |
| `Feedback.MessageOneMissed` | components/captcha/FeedbackDisplay.tsx:26-27 | one missed number 3 gives "You missed number 3" |
| `Feedback.MessageTwoMissed` | components/captcha/FeedbackDisplay.tsx:28-29 | two missed numbers are listed after "You missed numbers ", joined with ", " |
| `Feedback.MessageManyMissed` | components/captcha/FeedbackDisplay.tsx:30-31 | four missed numbers give "You missed 4 numbers" |
| `Feedback.ShownBannerHasText` | components/captcha/FeedbackDisplay.tsx:37-53 | the missed banner shows only when its flag is on and then has a non-empty message |
| `Scenarios.ArrowLayout` | constants/Shapes.ts:51-62 | the arrow shape with zero jitter on a 400-unit canvas puts node i at (p.x * 320 + 40, p.y * 320 + 40) |

## Left out

- The verify-time reveal animation (`components/captcha/AnimatedDrawnPath.tsx`, `components/Captcha.tsx:63-118`, `components/captcha/index.tsx:125-135`, `components/Captcha.tsx:213-225`) and the animation value that reset sets. The path length comes from the foreign `svg-path-properties` library, and the timing and easing come from Reanimated.
- The hold-to-confirm button (`components/HoldToConfirmButton.tsx`) and the calls to its `reset` handle. It is an animation-driven widget outside the engine.
- Timer delays (1000/2000/1500 ms and 500/50 ms) and cancellation. The callbacks are methods a caller invokes, so a stale callback after a manual reset can be expressed but is not ruled out.
- React batching. The model assumes each event sees the state committed after the previous event. It does not model two events handled within one render.
- Floating point. Coordinates are exact reals. `Math.hypot(dx, dy) < 20` is modelled as the squared comparison `dx*dx + dy*dy < 400`, and they agree on exact reals.
- `Math.random`. It becomes the `pick` and `Draw` parameters, each in [0, 1).
- The text of SVG path strings, including how `${x}` formats a float. Paths are command sequences, so concatenating paths is sequence concatenation.
- Theme colours (`useThemeColor`). They become the `PathColor` enum.
- Rendering and navigation: `CaptchaCanvas`, `ActionBar`, `BottomNavBar`, `InfoModal`, `AudioPlayer`, `app/index.tsx`, the grid dots, the audio/info view toggles in `components/captcha/index.tsx:33-34,183-198`, `console.log`, and the gesture detector's `enabled(!isVerifying)`. The handlers' own guards already cover that last switch.
- Utils.GenerateNumbers: the in-canvas bound is stated only for canvas sides between 80 and 400. On a window narrower than about 89 units the source's canvas is smaller than twice the margin, and nodes can fall outside it.
- Feedback.Message: ids are natural numbers. The string form of non-integer or negative JavaScript numbers is not modelled.
