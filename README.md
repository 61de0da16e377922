# Glass Stepping Stones LED core, modelled in Dafny

This project models the core of the Squid Game "Glass Stepping Stones" LED
installation, in three modules:

- **LedStrips** (`controller.py`). A `Controller` owns numbered `LightStrip`s.
  Each strip is a fixed-length colour buffer, modelled as an `array<Color>`
  that is updated in place. `get_segment` checks its bounds and returns a
  `Segment`, which swaps reversed endpoints and sets a `flip` flag.
  `apply_func` writes colour-function results into a physical range. Indexing
  follows Python list semantics:
  - a negative index counts from the end;
  - an index outside `[-n, n)` raises `IndexError` and stops the loop, and the
    writes made before it stay;
  - `get_pixels` is a clamped slice.
- **SegmentGrid** (`grid.py`). A registry of `SEG_COUNT` = 29 segments over
  eight strips. It is built by appending and then overwriting five slots. It
  has a bounds-checked lookup (`get_seg`) and the per-frame pass `use_rule`.
  The layout is also given as a reference value, `LAYOUT`. The imperative
  builder is proved to produce `LAYOUT`, and `LAYOUT` is proved to give 29
  unflipped 20-pixel segments, no two of which share a pixel.
- **GameModes** (`game.py`). The mode state machine. Its bands are:
  - attract, 100-102;
  - tile cascade, 200s;
  - gameplay, 300s, where `mode % 10` is the step of the round.

  The `Game` class also has `set_mode`, `reset_game` and the
  "install once, then poll" flags. `Game.Update` is proved equal to a pure
  transition function `Next`. The properties of the state machine are lemmas
  about `Next`.

Inputs and outside calls are modelled as follows:
- **Inputs**:
  - the clock reading `now` (a real);
  - the set of pressed key names;
  - the random tile draw, given as `coin: nat -> bool`, where draw `i` is
    `randint(0, 1) == 1`.
- **Recorded as events**: sound calls, `grid.clear_rules` calls and each
  mode's rule installations are appended to an event log (`Event`).
- **Opaque parameters**: colour functions are opaque
  `(pixel, strip_size) -> Color` values, and `functions.flip` is a parameter
  `flipOf`.

### Behaviour of the code worth knowing

- `Segment.get_pixels` returns the strip's `pixels[start:end]` in *physical*
  order. It does not un-reverse a flipped segment (controller.py:137-141).
- `apply_func` writes `f(i, strip.size)` at the physical index `i`. It passes
  the whole strip's size, not the segment's. There is no reversal transform;
  reversal exists only as `functions.flip` wrapping the function in
  `Segment.set_func` (controller.py:77-78, 120-128).
- Out-of-range segments and lookups raise Python's `IndexError`. A missing
  strip number raises `KeyError`.
- `get_segment` checks `start < 0 or end > size` on the arguments *before* the
  swap (controller.py:51). So the reversed pair `(30, 10)` on a 20-pixel strip
  is accepted, and the segment's `use_func` then raises `IndexError` at pixel
  20 (`ReversedPairAccepted`, `AcceptedSegmentRaises`).
- The decide step moves to the *literal* modes 301 and 302
  (game.py:161-164), not to `mode + 1` / `mode + 2`. After one won round
  (303 → 310), a key press therefore goes back to 301/302.
- Reading the source, the reachable modes are exactly 100, 101, 102, 200,
  300-306 and 310. The model proves one half of this: no update leads out of
  that set (`NextPreservesInv`). That every listed mode is actually reached is
  not proved.
  - 305 and 306 (the outcomes of the right box) have no branch, so the game
    stays in them forever (`DeadEnds`).
  - 310 is the decide step of the next ten.
- `main.py` builds `Controller((20, 20, 1000))`. That controller has no strip
  3, so building the grid fails with `KeyError` at the first overwrite
  (grid.py:14, controller.py:19). `Grid.Build` raises exactly `BuildError` of the
  sizes, and `MainControllerCannotHostGrid` shows that this is `KeyError` for
  main.py's sizes.

## Model

| member | source | states |
|---|---|---|
| LedStrips.PyIndex | controller.py:78 | `pixels[i]` is accepted exactly for `-n <= i < n` and addresses `i` or `i + n` |
| LedStrips.PySliceBound | controller.py:141 | a slice bound is clamped into `[0, n]`, negative bounds counting from the end |
| LedStrips.PySlice | controller.py:141 | inside the list a slice is the plain subsequence; it is never longer than `b - a` |
| LedStrips.Raises | controller.py:77-78 | the condition under which the apply_func loop raises: a non-empty range that leaves `[-n, n)` (characterised by `StopAt`) |
| LedStrips.StopAt | controller.py:77-78 | where the loop stops: every index before it is accepted, short of `end` the stop is the first rejected index (for an empty range it is `start`), and it falls short of `end` exactly when `Raises` holds |
| LedStrips.Written | controller.py:77-78 | the buffer after the first accepted iterations, of unchanged length |
| LedStrips.Applied | controller.py:70-78 | the buffer after apply_func, including the writes made before an IndexError: same length, and every index `0 <= k` before the stop holds `f(k, size)` (a negative index's write can be overwritten later at `k + n`) |
| LedStrips.WrittenStep | controller.py:77-78 | one more accepted iteration of the apply_func loop is one more assignment `pixels[i] = f(i, size)` |
| LedStrips.AppliedInBounds | controller.py:70-78 | on an in-bounds range apply_func cannot raise, keeps the length, sets exactly `[start, end)` to `f(k, size)` and leaves every other pixel unchanged |
| LedStrips.AppliedFrame | controller.py:70-78 | for any arguments, a pixel named by no index of the range keeps its colour |
| LedStrips.AppliedIdempotent | controller.py:70-78 | applying the same function to the same range twice equals applying it once |
| LedStrips.AcceptedOrderedInBounds | controller.py:51-54 | for `start <= end`, get_segment accepts exactly when `0 <= start <= end <= size` |
| LedStrips.AcceptedSegmentRaises | controller.py:42-54 | an accepted pair gives a segment whose range raises only if the pair was reversed and reaches past the strip |
| LedStrips.ReversedPairAccepted | controller.py:42-54 | `(30, 10)` on a 20-pixel strip passes the check, and the range `[10, 30)` raises |
| LedStrips.LightStrip.constructor | controller.py:31-39 | `size` pixels, all `(0,0,0)`, no function |
| LedStrips.LightStrip.GetSegment | controller.py:42-54 | IndexError iff `start < 0 or end > size` on the raw arguments; otherwise a fresh segment with no function, swapped and flipped iff `end < start` |
| LedStrips.LightStrip.SetFunc | controller.py:56-61 | stores `f` |
| LedStrips.LightStrip.UseFunc | controller.py:63-68 | no function: buffer unchanged; otherwise every pixel `i` becomes `func(i, size)` |
| LedStrips.LightStrip.ApplyFunc | controller.py:70-78 | IndexError exactly when some index of the range is outside `[-size, size)`; the buffer is `Applied(old, f, start, end)`, including writes before the error |
| LedStrips.LightStrip.GetPixels | controller.py:80-84 | the whole buffer, pixel by pixel |
| LedStrips.LightStrip.Write | controller.py:86-90 | a stub: it changes nothing |
| LedStrips.Segment.constructor | controller.py:94-111 | fields swapped and `flip` set iff `end < start`; `start <= end` afterwards; no function |
| LedStrips.Segment.SetFunc | controller.py:120-128 | stores `flipOf(f)` iff `flip`, else `f` |
| LedStrips.Segment.UseFunc | controller.py:130-135 | no function: nothing changes; otherwise apply_func on `[start, end)`, failing with IndexError exactly when the range leaves the strip's window; inside the strip exactly `[start, end)` is rendered, and get_pixels reads back `f(start + j, strip.size)` |
| LedStrips.Segment.GetPixels | controller.py:137-141 | the strip's `pixels[start:end]` in physical order, of length `size()` inside the strip |
| LedStrips.Segment.Size | controller.py:143-147 | `end - start`, never negative |
| LedStrips.Controller.constructor | controller.py:5-12 | one fresh, dark strip per entry of the sizes, keyed `0..n-1`, strip `i` of size `sizes[i]`, no two sharing a buffer |
| LedStrips.Controller.GetStrip | controller.py:14-19 | KeyError unless `0 <= i < n`; otherwise strip `i` of size `sizes[i]` |
| LedStrips.Controller.Write | controller.py:21-26 | calls every strip's write in key order; nothing changes |
| SegmentGrid.BuildError | grid.py:8-18 | the exception of the first failing step of the constructor: KeyError for a missing strip, IndexError for one too short |
| SegmentGrid.LayoutShape | grid.py:8-18 | segments 0 and 1 are `[0,20)` of strips 0 and 1; slots 12, 15, 18, 21, 24 are `[0,20)` of strips 3-7; every other slot `k` is `[(k-2)*20, (k-1)*20)` of strip 2 |
| SegmentGrid.LayoutSegmentsOf20 | grid.py:8-18 | every registered segment spans 20 pixels on strips 0-7 |
| SegmentGrid.LayoutDisjoint | grid.py:8-18 | no two registered segments on one strip overlap |
| SegmentGrid.GridFitsIffPlacementsFit | grid.py:8-18 | the sizes accepted are exactly those in which every placement's strip exists and holds its range |
| SegmentGrid.MainControllerCannotHostGrid | grid.py:8-18 | the `(20, 20, 1000)` controller of main.py does not fit the layout, passes the appending part, and the constructor raises KeyError |
| SegmentGrid.Grid.constructor | grid.py:6-7 | an empty registry on the controller |
| SegmentGrid.Grid.Build | grid.py:6-18 | succeeds iff strips 0-7 exist, strip 2 holds at least 540 pixels and the others at least 20; otherwise it raises `BuildError` (KeyError or IndexError of the first failing step); the registry is then `LAYOUT`: 29 unflipped 20-pixel segments without a function that share no pixel |
| SegmentGrid.Grid.AppendBlocks | grid.py:8-13 | the appending part succeeds iff strips 0 and 1 hold at least 20 and strip 2 at least 540 pixels, raising the first failing step's error otherwise, and then yields the 29 appended placements |
| SegmentGrid.Grid.Overwrite | grid.py:14-18 | the five overwrites succeed iff strips 3-7 exist with 20 pixels, raising the first failing overwrite's error otherwise, and then leave `LAYOUT` |
| SegmentGrid.Grid.Replace | grid.py:14-18 | one overwrite succeeds exactly when the strip exists and holds 20 pixels, raises KeyError for a missing strip and IndexError for a short one, and then only that slot changes, to `[0, 20)` of that strip |
| SegmentGrid.Grid.LayoutIsValid | grid.py:8-18 | a registry laid out as `LAYOUT` is valid: inside its strips, pairwise apart, each of size 20 |
| SegmentGrid.Grid.GetSeg | grid.py:20-30 | IndexError unless `0 <= k < 29`; otherwise `segments[k]` |
| SegmentGrid.Grid.UseRule | grid.py:32-38 | after the pass over all segments, each segment's range holds its function's colours and every pixel outside all ranges is unchanged |
| SegmentGrid.Grid.UseSegment | grid.py:36-37 | one segment's turn renders its own range and changes no other pixel |
| GameModes.BoxesShape | game.py:23-32 | box `b` is segments `b`, `b + 2` and two crossing segments `12 + 3(b/2) + b%2` and the next one, all grid segments below 27 |
| GameModes.GenCorrectTiles | game.py:38-42 | five tiles, each 0 or 1 |
| GameModes.GenCorrectTilesOnto | game.py:38-42 | every valid tile assignment can be drawn |
| GameModes.Initial | game.py:57-74 | definition: the state the constructor leaves (mode 100, fresh tiles, count 0); stated about by `Game.constructor` |
| GameModes.SetModeStep | game.py:222-231 | definition of set_mode on a state; its shape (one clear_rules, last) is `SetModeShape` |
| GameModes.Reset | game.py:233-239 | definition of reset_game on a state; stated about by `LoseStep` and `Game.ResetGame` |
| GameModes.InstallOnce | game.py:96-99 | definition of an install block; `InstallOnlyWhenUninitialized` and `InstallOnFirstUpdate` state its behaviour |
| GameModes.Attract | game.py:89-121 | the attract branch as a function; `AttractStartKey`, `AttractCycle`, `AttractShape` state it |
| GameModes.Cascade | game.py:124-141 | the cascade branch as a function; `CascadeStep`, `CascadeShape` state it |
| GameModes.Decide | game.py:148-164 | the decide step as a function; `DecideStep`, `DecideShape` state it |
| GameModes.Reveal | game.py:167-190 | the reveal steps as a function; `RevealStep`, `RevealShape` state it |
| GameModes.Won | game.py:193-200 | the win step as a function; `WinStep`, `WonShape` state it |
| GameModes.Lost | game.py:203-216 | the lose step as a function; `LoseStep`, `ScreamLatch`, `LostShape` state it |
| GameModes.Gameplay | game.py:144-216 | the gameplay branch, dispatched on `mode % 10`; `GameplayShape` and `DeadEnds` state it |
| GameModes.Dispatch | game.py:76-216 | update() before its last statement; `DispatchShape` states it |
| GameModes.Settle | game.py:219-220 | update()'s last statement; `InitializedIffNoModeChange` states its effect |
| GameModes.Next | game.py:76-220 | update() as a transition function; `Game.Update` is proved equal to it, and `NextPreservesInv`, `InitializedIffNoModeChange` and the step lemmas state its properties |
| GameModes.AttractShape | game.py:89-121 | each attract branch calls set_mode at most once, as its last call |
| GameModes.CascadeShape | game.py:124-141 | the cascade branch calls set_mode at most once, as its last call |
| GameModes.DecideShape | game.py:148-164 | the decide step calls set_mode at most once, as its last call |
| GameModes.RevealShape | game.py:167-190 | a reveal step calls set_mode at most once, as its last call |
| GameModes.WonShape | game.py:193-200 | the win step calls set_mode at most once, as its last call |
| GameModes.LostShape | game.py:203-216 | the lose step calls set_mode at most once, as its last call |
| GameModes.GameplayShape | game.py:144-216 | every gameplay step calls set_mode at most once, as its last call |
| GameModes.DispatchShape | game.py:80-216 | every branch of update either leaves mode, clock and flags alone without clear_rules, or ends with exactly one set_mode |
| GameModes.InitializedIffNoModeChange | game.py:219-231 | after an update, mode_initialized holds iff no set_mode ran; at most one ran; new_mode is its opposite; a mode change restarts the clock |
| GameModes.InstallOnFirstUpdate | game.py:89-216 | on the first update after entry the mode's install block runs, unless the start key ends attract first |
| GameModes.InstallOnlyWhenUninitialized | game.py:89-216 | once initialised, a mode from 100 up installs nothing |
| GameModes.InstallOncePerEntry | game.py:96-220 | an update without a mode change is followed by one that installs nothing |
| GameModes.AttractStartKey | game.py:91-93 | in 100-199 the start key wins: mode 200, both clears, cascade count 0, initialisation pending |
| GameModes.AttractCycle | game.py:95-121 | 100 moves to 101 in the same update; 101 and 102 swap after 10 seconds; other attract modes stay |
| GameModes.CascadeStep | game.py:137-141 | the count rises by at most 1 per update, exactly when below 5 and past `count * 0.8` seconds, with a cue each time, never beyond 5; after 7 seconds the mode is 300 |
| GameModes.DecideStep | game.py:161-164 | key `a` leads to 301, else key `b` to 302, each with `clear_grid` only; otherwise the mode stays |
| GameModes.RevealStep | game.py:173-190 | after 2 seconds step 1 leads to 303/304 and step 2 to 305/306, the odd one iff `correct_tiles[0] == 0` |
| GameModes.WinStep | game.py:199-200 | after 3.5 seconds the mode advances by 7, landing on a decide step |
| GameModes.LoseStep | game.py:214-239 | after 5 seconds: mode 100 with both clears, fresh tiles, count 0, scream off; before that the mode stays |
| GameModes.DeadEnds | game.py:144-216 | steps 5-9 and modes from 400 up only finish initialisation and emit nothing |
| GameModes.ScreamLatch | game.py:211-216 | in the lose step the scream sounds iff not yet started and past 0.5 seconds; the flag is on until the reset after 5 seconds |
| GameModes.NoScreamOutsideLose | game.py:76-220 | outside the lose step the scream flag never changes and the scream never sounds |
| GameModes.InvFlags | game.py:219-220 | when an update leaves mode, count and tiles in range, the rest of the invariant (`new_mode ==> !mode_initialized`) holds too |
| GameModes.InvAttract | game.py:89-121 | the attract branch keeps the invariant |
| GameModes.InvCascade | game.py:124-141 | the cascade branch keeps the invariant |
| GameModes.InvChoose | game.py:148-190 | the decide and reveal steps keep the invariant |
| GameModes.InvOutcome | game.py:193-216 | the win, lose and dead-end steps keep the invariant |
| GameModes.NextPreservesInv | game.py:76-220 | every update keeps valid tiles, a count within 0..5, a reachable mode and `new_mode ==> !mode_initialized` |
| GameModes.Game.constructor | game.py:57-74 | mode 100, not initialised, clock 0, fresh tiles, count 0, no scream, empty log |
| GameModes.Game.Update | game.py:76-220 | the new state and the calls made are those of `Next`, and the invariant is kept |
| GameModes.Game.UpdateAttract | game.py:89-121 | the attract branch as `Attract` |
| GameModes.Game.UpdateCascade | game.py:124-141 | the cascade branch as `Cascade` |
| GameModes.Game.UpdateGameplay | game.py:144-216 | the gameplay branch as `Gameplay`, dispatched on the last digit |
| GameModes.Game.UpdateDecide | game.py:148-164 | the decide step as `Decide` |
| GameModes.Game.UpdateReveal | game.py:167-190 | a reveal step as `Reveal` |
| GameModes.Game.UpdateWon | game.py:193-200 | the win step as `Won` |
| GameModes.Game.UpdateLost | game.py:203-216 | the lose step as `Lost` |
| GameModes.Game.Install | game.py:96-99 | an install block runs only while not initialised, logging its cues and its rules |
| GameModes.Game.SetMode | game.py:222-231 | sets mode, clock, `mode_initialized = False` and `new_mode = True`, and makes one clear_rules call |
| GameModes.Game.ResetGame | game.py:233-239 | fresh tiles, count 0, scream off, nothing else changed |

## Left out

- `main.py`: wiring, the endless frame loop, frame timing and the emulator display.
- `rule.py`, `functions.py`, `MultiSegment`, `colors`, `sounds` and `emulator` are not part of this model.
  - Colour functions and `functions.flip` are opaque parameters.
  - The rules each mode installs are recorded only as `InstallRules(mode)`.
  - Sound calls are recorded only as events.
- `LightStrip.write` is a stub in the source (controller.py:86-90), so it is modelled as a method that does nothing. `Controller.write` calls it on every strip (controller.py:21-26), and the model does the same.
- `Segment.func`, the method at controller.py:113-118, is left out. The instance attribute set at controller.py:111 shadows it, and it calls the strip's `func` attribute as if it were a function.
- Name mismatches in the source:
  - grid.py:37 calls `segment.use_rule`, which no class defines. `Grid.UseRule` calls `Segment.UseFunc` in its place.
  - `grid.clear_rules` and `set_rule` are not defined in the classes shown. The model only logs `clear_rules(clear_grid, clear_railings)`; its effect on rules is not modelled.
- Further simplifications:
  - A strip's reference to its controller is not modelled, because no modelled operation reads it. The emulator that main.py:22 builds over the grid is not part of this model.
  - The grid's list of segments is modelled as a `seq`, and a strip size is a `nat`. Negative strip sizes are excluded by that type, although Python would accept them as empty lists.
  - Colour functions are modelled as pure. A function with side effects or one that raises is not captured.
  - In the mode ≤ 99 test branch, the installed rule is logged as `InstallRules(mode)` on every update.
  - The clock is modelled as one reading `now` per update. `set_mode` in the source calls `time.time()` again, so a restarted clock may differ by the time between the two calls.
  - Time is a real number, not a float, and is compared only against thresholds.
- `Game.__init__` takes the controller and grid as collaborators. The model records calls on them in the log and does not store them.
- Output printed by `set_mode` is left out.
- `LightStrip.GetPixels` returns a copy of the buffer. In the source, controller.py:84 returns the live list, so a caller shares it with the strip; no modelled operation writes through that shared list.
- The functions `Initial`, `SetModeStep`, `Reset`, `InstallOnce`, `Attract`, `Cascade`, `Decide`, `Reveal`, `Won`, `Lost`, `Gameplay`, `Dispatch`, `Settle` and `Next` carry no contracts of their own. They are definitions, and the lemmas and methods named in their rows state their properties.
- `Segment.GetPixels`: for a segment lying outside its strip (only possible from a reversed pair), the contract states only the length bound, not the clamped slice.
