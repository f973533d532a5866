# Sliding-window labeller for bid/ask quotes, in Dafny

This project models the labelling engine of a service that reads a stream of
bid/ask quote events. For each origin event it decides which of several
threshold moves (for example "the bid rises 0.40 before the ask falls 0.20")
is touched first by the events that follow. The outcome is a fixed-width label
vector, stored together with the origin's event id and the offset range it covers.

The model has one module per source file, plus the support module `Options`
(options.dfy), which holds the `Option` type the Rust code uses:

- `Checks` (`src/checks.rs`): a threshold check. The source's `CheckUp` and
  `CheckDown` structs sit behind a boxed trait object. Here they are the `Up` and
  `Down` variants of one datatype, with the shared fields `ordinal`, `thresholdUp`,
  `thresholdDown` and `result`. The `ordinal()` getter is the shared field.
  `track` mutates the check's `result` latch in place. Here it is `Check.Track`,
  which returns the updated check together with the boolean that `track` returns.
- `Handler` (`src/handler.rs`): the window controller `HandleEvents`. It is a class
  with mutable fields `checks`, `complete`, `events` (the deque, as a sequence),
  `startDate` and `startValues`. Its methods `Handle`, `MoveToNext`, `Reset`,
  `ResetChecks` and `StartWith` change these fields as the source does.
  `Proc` is the associated function that runs `extract_if` over the active checks.
  It is a loop verified against the functions `Kept` and `Fired`. The replay
  loop of `move_to_next` is `ReplayEvents`, verified against `Replay`.
- `Labeler` (`src/labeler.rs`): `MakeLabel` writes into a zeroed array in a loop
  and is verified against `LabelOf`. `MakeLabeled` assembles the stored record,
  and `SeekStart` computes the resume offset.

Prices and price changes are integers in hundredths. So `rounded_diff`, which
rounds an `f32` difference to two decimals, becomes plain subtraction. The check
table of `src/main.rs` becomes `Checks.DefaultChecks`: for example
`CheckDown::new(0, -0.40, 0.20)` becomes `NewCheckDown(0, -40, 20)`. Label slots
are the reals 1.0 and 0.0. An event's trading-time status and trading day come
from an external calendar library. Here they are the fields `inTradingTime` and
`date` of `QuoteEvent`, and "same date" is equality of day numbers.
`NaiveDate::default()` becomes day 0.

The controller's invariant `HandleEvents.Valid` holds after construction and is
kept by `Handle`, `MoveToNext` and `Reset`. It says three things:

- No check is lost or duplicated. `checks ++ complete` stays a permutation of the
  checks the controller was built with. The permutation is counted up to the
  `result` latch, because `track` rewrites the latch in place.
- `complete` is empty whenever the buffer is empty.
- Every check in `complete` has its latch set, so `result()` cannot panic when a
  label is built.

Behaviour of the code that the model keeps on purpose:

- When the trading day changes, `handle` makes the new event the origin and
  appends it. It does not clear the buffer and does not return the resolved
  checks (`src/handler.rs:187-190`). The older events stay in front, so the
  next label's `event_id` and `offset_from` still come from the old front.
  `HandleEvents.Handle` states exactly this.
- `reset_checks` appends `complete` to `checks` and only then walks `complete`
  to reset each check. That vector is empty by then, so no latch is ever
  cleared (`src/handler.rs:129-133`). `StaleLatchesHarmless` and
  `ReplayIgnoresStaleLatches` prove this cannot be observed. A fired check's
  latch is always overwritten, so replaying with the latches cleared resolves
  the same checks with the same results.
- The replay in `move_to_next` skips the trading-time and trading-day rules. It
  also evaluates the new origin against its own prices (`src/handler.rs:79-82`).
  `OriginAgainstItselfKeepsAll` proves that for a non-negative spread no check
  fires on that event, provided its thresholds lie on either side of zero, as
  every entry of the default table does (`DefaultChecksWellFormed`).
- When the store holds no label, `seek_start` seeks to the oldest available
  offset plus one, so the oldest event is skipped (`src/labeler.rs:42-45`).
  `SeekStart` follows the code.
- The change formulas pair opposite sides: the bid change is the event's bid
  minus the origin's ask, and the ask change is the event's ask minus the
  origin's bid (`src/handler.rs:159-160`). `ExampleDownFavourableUpAdverse` runs
  one `proc` step from origin bid 100.00 / ask 100.02 on the quote bid
  98.50 / ask 98.52, where the ask change is 98.52 - 100.00 = -1.48.

`src/labeler.rs` calls `ids` and `move_to_next` through a wrapper whose
signatures differ from `src/handler.rs`. The model follows `src/handler.rs`:
`MakeLabeled` takes the controller and reads its buffer and `complete` vector.

## Model

| member | source | states |
|---|---|---|
| `Checks.Check.Reset` | src/checks.rs:56-58 | the latch becomes `None`; variant, ordinal and thresholds are unchanged (also the `CheckDown` counterpart, src/checks.rs:93-95) |
| `Checks.Check.Track` | src/checks.rs:42-54 | tracking never changes variant, ordinal or thresholds; "continue" leaves the check unchanged; "stop" means only the latch was written, and it is now set (also the `CheckDown` counterpart, src/checks.rs:79-91) |
| `Checks.TrackUpBranches` | src/checks.rs:42-54 | up check: bid change at or above `threshold_up` latches true; otherwise ask change at or below `threshold_down` latches false; otherwise it continues unchanged; it stops exactly when it latches |
| `Checks.TrackDownBranches` | src/checks.rs:79-91 | down check: ask change at or below `threshold_down` latches true; otherwise bid change at or above `threshold_up` latches false; otherwise it continues unchanged |
| `Checks.TrackFavourableWins` | src/checks.rs:43-50 | when both thresholds are crossed by one change, both variants latch true |
| `Checks.TrackStopsIffCrossed` | src/checks.rs:42-54 | `track` returns false if and only if one of the two thresholds is crossed |
| `Checks.TrackIgnoresLatch` | src/checks.rs:42-54 | whether a check stops, and what it latches, does not depend on its previous latch |
| `Checks.Check.Value` | src/checks.rs:61 | `result()` needs the latch set (the unwrap) and returns the latched value (also the `CheckDown` counterpart, src/checks.rs:98) |
| `Checks.NewCheckUp` | src/checks.rs:36-38 | an up check, unlatched, with the given ordinal, `threshold_up` and `threshold_down`, taken in that order |
| `Checks.NewCheckDown` | src/checks.rs:73-75 | a down check, unlatched, with the given ordinal; the second argument is `threshold_down` and the third `threshold_up` |
| `Checks.DefaultChecksWellFormed` | src/main.rs:22-31 | the eight configured checks sit at ordinals 0 to 7, start unlatched, and have thresholds on either side of zero |
| `Handler.ValuesOf` | src/handler.rs:27-31 | the reference prices of an event are its bid and ask |
| `Handler.RoundedDiff` | src/handler.rs:201-204 | on prices held in hundredths the difference is exact: adding `b` back gives `a` |
| `Handler.HandleEvents.constructor` | src/handler.rs:42-48 | all checks active, nothing resolved or buffered, default origin; the invariant holds |
| `Handler.HandleEvents.IsDone` | src/handler.rs:50-52 | a window is done exactly when no check is active |
| `Handler.HandleEvents.Ids` | src/handler.rs:54-62 | needs a non-empty buffer; returns the front's event id and offset and the back's offset; with increasing offsets, `offset_from <= offset_to` |
| `Handler.HandleEvents.Proc` | src/handler.rs:157-172 | bid change is event bid minus origin ask and ask change is event ask minus origin bid; the checks whose `track` continues stay in `checks` in order; the others are appended in order to `complete` with their latches; returns whether any check is still active |
| `Handler.KeptFiredConserve` | src/handler.rs:163-169 | `extract_if` neither loses nor duplicates a check: kept and moved checks together are the input, up to latches |
| `Handler.FiredResolved` | src/handler.rs:163-169 | every check moved to `complete` has its latch set |
| `Handler.KeptMembers` | src/handler.rs:163-169 | a check stays active if and only if it was active and its `track` returned true |
| `Handler.FiredMembers` | src/handler.rs:163-169 | every active check whose `track` returned false is moved to `complete` with its latch, and every moved check is such a check |
| `Handler.ProcKeepsOrder` | src/handler.rs:163-169 | kept and moved checks distribute over concatenation of the input, so both keep its relative order |
| `Handler.ProcStepConserves` | src/handler.rs:157-172 | one `proc` call keeps the checks of `checks ++ complete` up to latches, and keeps every resolved latch set |
| `Handler.HandleEvents.ResetChecks` | src/handler.rs:128-134 | `checks` becomes old `checks` followed by old `complete`, `complete` becomes empty, and no latch is cleared |
| `Handler.ConfigsMerge` | src/handler.rs:129 | appending `complete` to `checks` keeps the same checks |
| `Handler.HandleEvents.Reset` | src/handler.rs:136-143 | on an empty buffer nothing changes; otherwise every check returns to `checks` and the buffer is cleared; the invariant is kept |
| `Handler.HandleEvents.StartWith` | src/handler.rs:145-148 | the origin's prices and date become the event's; nothing else changes |
| `Handler.HandleEvents.Handle` | src/handler.rs:176-198 | outside trading time the event is dropped, the window is reset and the call returns true; on an empty buffer or another date the event becomes the origin and is appended unevaluated, with the check vectors untouched, returning true; otherwise `proc` runs against the origin, the event is appended, and the result says whether checks remain; the invariant is kept and increasing offsets stay increasing |
| `Handler.HandleEvents.ReplayEvents` | src/handler.rs:78-82 | runs `proc` for every event of the buffer in order, against one origin |
| `Handler.ReplayConserves` | src/handler.rs:78-82 | the replay keeps the checks up to latches and keeps every resolved latch set |
| `Handler.HandleEvents.MoveToNext` | src/handler.rs:64-85 | needs no active check and at least two buffered events; drops exactly the front; the new front becomes the origin; all checks are replayed over the whole remaining buffer, the new origin included; returns whether the window is complete again; the invariant is kept; with increasing offsets the new `offset_from` is larger |
| `Handler.OffsetsIncreasingTail` | src/handler.rs:68-71 | dropping the front of an increasing buffer keeps it increasing and moves its front offset forward |
| `Handler.StaleLatchesHarmless` | src/handler.rs:128-134 | one `proc` call on checks with cleared latches moves the same checks with the same results |
| `Handler.ReplayIgnoresStaleLatches` | src/handler.rs:64-85 | the replay after `reset_checks` resolves the same checks with the same results as it would with all latches cleared |
| `Handler.OriginAgainstItselfKeepsAll` | src/handler.rs:71-82 | evaluating the new origin against its own prices, with a non-negative spread, fires no check whose thresholds lie on either side of zero |
| `Handler.ExampleUpFavourable` | src/handler.rs:157-172 | from origin bid 100.00 / ask 100.02, the quote bid 102.10 / ask 102.12 gives a bid change of 2.08: one `proc` step resolves an up check with threshold 2.00 to true and keeps one with threshold 3.00 active |
| `Handler.ExampleDownFavourableUpAdverse` | src/handler.rs:157-172 | from the same origin, the quote bid 98.50 / ask 98.52 gives an ask change of -1.48: one `proc` step appends a down check at -1.00 resolved true and an up check with adverse threshold -1.00 resolved false, in that order after the already resolved checks, and keeps a down check at -2.00 active |
| `Labeler.LabelOf` | src/labeler.rs:184-191 | the label has one slot per position of the label type |
| `Labeler.MakeLabel` | src/labeler.rs:184-191 | needs every resolved check's ordinal inside the label and its latch set; the array loop produces `LabelOf` of the resolved checks |
| `Labeler.LabelOfUntouched` | src/labeler.rs:186 | a slot that no resolved check points at keeps its default 0.0 |
| `Labeler.LabelOfLastWins` | src/labeler.rs:187-189 | the last resolved check with a given ordinal decides that slot: 1.0 if its result is true, 0.0 otherwise |
| `Labeler.LabelOfDistinct` | src/labeler.rs:187-189 | with distinct ordinals, every resolved check's outcome is in its own slot |
| `Labeler.MakeLabeled` | src/labeler.rs:171-182 | the record copies event id, `offset_from` and `offset_to` from the window's ids and the timestamp from the clock, and carries the label of the resolved checks |
| `Labeler.MaxOffsetFrom` | src/labeler.rs:37 | none exactly when the store is empty; otherwise a stored `offset_from` that no stored label exceeds |
| `Labeler.SeekStart` | src/labeler.rs:35-46 | with labels stored, one past the largest stored `offset_from`; with none, the oldest available offset plus one |
| `Labeler.SeekStartAdvances` | src/labeler.rs:37-45 | storing one more label never moves the resume offset back, and moves it past that label |

## Left out

- RoundedDiff: does not model the `f32` rounding (`powi`, `round`), because prices are exact integers in hundredths and the rounding is then the identity. `f32` label slots are exact reals.
- The trading-calendar helpers `event_in_trading_time`, `same_date` and `to_date` belong to an external library. They are event fields.
- Integer widths: event ids, offsets and timestamps (`u64`) are unbounded naturals. So `max_offset_from + 1` cannot overflow in the model. Ordinals keep their `u8` range.
- The label width comes from the external `LabelType`. It is a parameter, and an ordinal outside it is excluded by precondition, where the source's indexing panics.
- I/O and concurrency in `src/labeler.rs`: the asynchronous `run` loop, `store_extra`, `store_result`, `send_event`, `new`, the stream reader and writer, the key-value store, JSON encoding and `now()`. The run loop drives the controller through an external wrapper whose signatures differ from `src/handler.rs`. The store's `label_max` query is modelled only by the offset it yields (`MaxOffsetFrom` over the stored records). The reader's `seek` is not modelled.
- `reset_all_label_data`: a store delete.
- `src/main.rs` (bootstrap and wiring). Only its check table is kept, as `DefaultChecks`. `src/main.old.rs` is an obsolete prototype.
- The commented-out designs in `src/handler.rs` (`init_next`, `use_base`, `proc_event`, the second `start_with`) and in `src/labeler.rs` (`find_valid_sequence`) are not live code.
- The `EventHandler` trait and the `Check` trait with its `Box<dyn Check>` forwarding impl: the trait dispatch becomes the match inside `Check.Track`.
- The `panic!` in `ids`, and the `assert!` and `unwrap` in `move_to_next`, are preconditions. The model has no behaviour for calls that break them.
- The walk over the emptied `complete` in `reset_checks` is not written as a loop. It has no iterations, and `ResetChecks` states that no latch changes.
