# Egg reveal scene: a Dafny model

This project models the logic of `index.js`, the script that draws the farm
scene: a three.js scene with a farm backdrop, a chicken and thirty hidden eggs.
Clicking the chicken reveals the eggs one at a time on a 100 ms interval. The
model covers four parts:

- **Background** (`background.dfy`) picks the day or night backdrop and the ambient
  light colour for an hour of the day. Day is from 6 up to but not including 19.
- **EggField** (`eggs.dfy`) is the egg creation loop. It makes 30 eggs of scale 0.02.
  Each egg gets a position jittered inside a small box and a random rotation. The
  five `Math.random()` results per egg are passed in as a `Draw`.
- **Reveal** (`reveal.dfy`) is the reveal sequencer. `State` is its abstract value:
  the visibility flags, the counter `revealedEggs`, the set of live intervals and
  the next interval handle. `AfterStart` and `AfterTick` are its transitions, and
  `Run` is any interleaving of starts and ticks. The class `Sequencer` is the state
  the source changes in place: an `array<bool>` of flags, the counter and the
  interval set. Its methods `RevealEggsOneByOne` and `Tick` are proved equal to the
  two transitions.
- **Picking** (`picking.dfy`) is the click handler. It maps the pointer to
  normalised device coordinates and starts the reveal only when the chicken has
  loaded and the ray hits it.

Three facts about the reveal shape the model:

- Nothing stops a second start while intervals are live. Each start adds one
  more interval, and all of them advance the same counter, so two clicks reveal
  two eggs per period (`Reveal.TwoStartsTwoIntervals`).
- The counter is never reset, so a second run resumes where the first stopped.
- The script makes 30 eggs.

## Model

| member | source | states |
|---|---|---|
| Background.SceneBackdrop | index.js:48-62 | the texture is farm2.jpg and the ambient colour 0xffffff exactly when 6 <= hour < 19; otherwise they are farm3.jpg and 0x000000 |
| Background.TextureMatchesLight | index.js:50-60 | the day texture always comes with the white light and the night texture with the black light |
| Background.BackdropDependsOnlyOnDayTime | index.js:50-60 | two hours give the same backdrop if and only if they agree on the daytime test |
| Background.MorningAndEvening | index.js:49-60 | hour 10 gives the day texture with a white light; hour 22 gives the night texture with a black light |
| EggField.PlaceEgg | index.js:85-91 | for draws in [0, 1): scale 0.02 on every axis, x in [-0.22, 0.03), y = -0.2, z in (-0.1, 0], rotation.y in [0, 2π), rotation.x and rotation.z in [-0.25, 0.25) |
| EggField.DrawFor | index.js:86-91 | every egg inside those bounds has draws in [0, 1) that could have produced it |
| EggField.EveryBoundedEggIsReachable | index.js:86-91 | the bounds are tight: placing an egg from the draws recovered from it gives back the same egg |
| EggField.CreateEggs | index.js:81-96 | the loop makes exactly 30 eggs in insertion order; egg i comes from the i-th draws and lies within the bounds |
| Reveal.Initial | index.js:153 | after setup every egg is hidden, the counter is 0, no interval is live, and the invariant holds |
| Reveal.AfterStart | index.js:174-177 | start changes no flag and not the counter; it is a no-op when every egg is shown, and otherwise adds exactly one new live interval; it preserves the invariant |
| Reveal.AfterTick | index.js:177-184 | a tick with eggs remaining shows exactly egg `revealed` and adds one to the counter; a tick with none remaining clears only its own interval; no other flag changes and the invariant is preserved |
| Reveal.RunPreservesInv | index.js:174-185 | for any interleaving of starts and ticks with any number of live intervals: the counter stays within the array, egg i is shown iff i is below the counter, and the counter never decreases and rises by at most one per tick |
| Reveal.CompletionIsFinal | index.js:175-181 | once every egg is shown, no later event changes a flag or the counter, and no interval is created |
| Reveal.OneIntervalRevealsAll | index.js:177-184 | one live interval alone shows all remaining eggs, one per tick, and its next tick clears it and no other interval |
| Reveal.FullRevealFromSetup | index.js:174-185 | from setup, one start and 30 ticks show all 30 eggs; the 31st tick leaves no live interval |
| Reveal.TwoStartsTwoIntervals | index.js:174-177 | two starts while eggs remain create two live intervals, and one tick of each reveals two eggs |
| Reveal.Sequencer.constructor | index.js:81-96 | setup builds the 30 eggs from the draws, allocates 30 hidden flags and sets the counter to 0; the invariant holds |
| Reveal.Sequencer.RevealEggsOneByOne | index.js:174-185 | the new state equals `AfterStart` of the old state, and the invariant is kept |
| Reveal.Sequencer.Tick | index.js:177-184 | the new state equals `AfterTick` of the old state for the interval that fired; the index it writes is always in bounds; the invariant is kept |
| Picking.ToNdc | index.js:157-158 | a pixel in [0, w]×[0, h] maps into [-1, 1]², and mapping back gives the same pixel |
| Picking.ToPixels | index.js:157-158 | the inverse map sends [-1, 1]² back into the viewport |
| Picking.NdcRoundTrip | index.js:157-158 | every device coordinate maps back to itself through its pixel |
| Picking.CentreAndCorner | index.js:157-158 | the viewport centre maps to (0, 0) and the top-left corner maps to (-1, 1) |
| Picking.Click | index.js:164-168 | a click changes nothing unless the chicken is loaded and the hit list is non-empty; on a hit it is a start |
| Picking.ClickChangesStateIff | index.js:164-168 | a click changes the sequencer iff the chicken is loaded, the hit list is non-empty and an egg is still hidden; when it does, it adds one live interval |
| Picking.OnClick | index.js:155-170 | returns the normalised mouse position; the new sequencer state is `Click` of the old one; the invariant is kept |

## Left out

- Scene setup is not modelled: the camera, renderer, lights, orbit controls and their angle limits. These are configuration calls into three.js.
- Texture loading is not modelled. `Background.SceneBackdrop` returns the texture path; the source assigns the loaded texture to the scene later, in a callback.
- The ambient light's initial intensity of 0.6 is not modelled. Only its colour depends on the hour.
- The hour is a parameter. The source reads it with `new Date().getHours()`, which gives 0 to 23.
- The lathe profile of the egg is left out. It is floating-point trigonometry.
- Numbers are exact reals, not IEEE doubles. For example, at a draw of 0 the double x is the double nearest -0.22, which lies slightly below the real -0.22 that bounds x in `EggField.WithinJitterBounds`; likewise the double y differs slightly from the real -0.2. `Math.PI` is the real 3.141592653589793.
- Visibility is stored in the sequencer's array, not on each egg mesh. The egg meshes are an immutable sequence of placements.
- GLTF and Draco loading, the chicken and grass models and the animation mixer are left out. The loaded chicken is only `Some` hit test in `Picking`; `None` stands for still loading or failed to load.
- Ray casting is left out. The hit test is an oracle that gives the number of intersections for a point.
- Picking.ToNdc: requires a viewport of positive width and height. For a zero-sized window the source divides by zero and gets NaN; that case is not modelled.
- The render loop and the resize handler are left out. They only drive the renderer.
- Interval timing in milliseconds is left out. Ticks are discrete atomic events, and elapsed time is not modelled.
- The header and routing components of the front end are not part of this model.
