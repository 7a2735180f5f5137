# Bathing mini-game and activity buttons

A Dafny model of the two parts of the baby-care simulator app that carry
logic of their own:

- **The bathing page** (`BanarPage`). A six-step game: click the baby into
  the tub, drop the shampoo, the soap ("jabon") and the shower
  ("regadera") on it, click it out of the tub, and drop the towel
  ("toalla"). The page keeps the step, a completion flag, a progress
  percentage and the baby picture. It also keeps drag-and-drop bookkeeping:
  each draggable object's rest position, the element being dragged and the
  pointer's offset inside it. An overlap test decides whether a release
  counts as a drop on the baby.
- **The home screen's button rule** (`HomePage.actualizarBotonesSegunActividades`).
  Every activity of the day whose window `[start, deadline)` contains the
  current instant enables the button its name maps to.

Files:

- `geometry.dfy` (module `Geometry`): boxes, positions and the overlap test.
- `bath_steps.dfy` (module `BathSteps`): the game rules as pure functions on
  a `Game` value. It holds the step table, the progress arithmetic in
  hundredths of a percent, the invariant of reachable states and lemmas
  over whole event sequences.
- `banar_page.dfy` (module `Banar`): the page as a class whose fields the
  handlers update in place. Each handler is proved to follow `BathSteps`.
  It also holds the rest-position registry and its lemmas.
- `home_page.dfy` (module `Home`): the activity record, the name-to-button
  table, the specification `Esperado`, and the `HomePage` class whose loop
  is proved against it.
- `wrappers.dfy`: an `Option` type.

Progress is an integer in hundredths (100 % is 10000). `toFixed(2)` is
modelled as rounding to the nearest hundredth: p + 100/6 % is
(6p + 10000)/6 hundredths, which rounds to p + 1667 for every p. So five
regular increments give 83.35 %, and the towel step sets exactly 100 %.

Behaviour worth noting:

- A matching drop advances the step at once, and `endDrag` always snaps
  the element back to its rest position, when it has one, whatever the
  drop's outcome.
- `startDrag` does not reject a second drag; it replaces the active element.
- The overlap test uses strict comparisons, so boxes that only touch on an
  edge overlap (`Geometry.TouchingEdgesOverlap`).
- The rest-position registry is a `Map.set` per element, so a later element
  with the same name overwrites an earlier one (`Banar.RegisterLastWins`).

## Model

| member | source | states |
|---|---|---|
| Geometry.Overlaps | src/app/pages/tareas/banar/banar.page.ts:108-112 | the drop test, with the same four strict comparisons, holds exactly when the boxes' horizontal extents meet and their vertical extents meet |
| Geometry.OverlapsIffSharedPoint | src/app/pages/tareas/banar/banar.page.ts:108-112 | for laid-out boxes, the drop test holds exactly when some point lies in both closed boxes |
| Geometry.OverlapsSymmetric | src/app/pages/tareas/banar/banar.page.ts:108-112 | the drop test gives the same answer with the two boxes swapped |
| Geometry.TouchingEdgesOverlap | src/app/pages/tareas/banar/banar.page.ts:108-112 | boxes sharing only a vertical edge count as overlapping |
| Geometry.SeparatedBoxesMiss | src/app/pages/tareas/banar/banar.page.ts:108-112 | a box strictly left of or above the other does not overlap it, in either order |
| BathSteps.NextProgress | src/app/pages/tareas/banar/banar.page.ts:157-161 | the final increment gives exactly 100 %; a regular one adds 16.67 % capped at 100 %; from a value in [0, 100 %] the result stays in range and does not decrease |
| BathSteps.ProgressAfterClosed | src/app/pages/tareas/banar/banar.page.ts:157-161 | n regular increments from 0 give min(100 %, 16.67 % times n) |
| BathSteps.FiveIncrements | src/app/pages/tareas/banar/banar.page.ts:157-161 | rounding accumulates: five increments show 83.35 %; a sixth increment, final or regular, reaches exactly 100 % |
| BathSteps.Click | src/app/pages/tareas/banar/banar.page.ts:50-62 | a click changes the state exactly when the game is not completed and the step is 0 or 4; it then raises the step by one and shows BebeTina (from 0) or BebeMojado (from 4) |
| BathSteps.Drop | src/app/pages/tareas/banar/banar.page.ts:134-155 | a drop changes the state exactly when the game is not completed and the name is the one expected at the step (shampoo at 1, jabon at 2, regadera at 3, toalla at 5); it then raises the step by one, completes the game only for the towel, and changes the picture only to Bebe on completion |
| BathSteps.InitialInv | src/app/pages/tareas/banar/banar.page.ts:14-22 | the initial fields satisfy the invariant |
| BathSteps.InvProgressBounds | src/app/pages/tareas/banar/banar.page.ts:157-161 | in every state satisfying the invariant progress lies in [0, 100 %] |
| BathSteps.ClickStep | src/app/pages/tareas/banar/banar.page.ts:50-62 | a click keeps the invariant (completed iff step 6, progress and picture those of the step), moves at most one step forward and never lowers progress |
| BathSteps.DropStep | src/app/pages/tareas/banar/banar.page.ts:134-155 | a drop keeps the invariant, moves at most one step forward and never lowers progress |
| BathSteps.RunForward | src/app/pages/tareas/banar/banar.page.ts:50-161 | over any sequence of clicks and drops the invariant holds, the step never goes back and rises by at most one per event, and progress never decreases |
| BathSteps.CompletedIsFinal | src/app/pages/tareas/banar/banar.page.ts:50-155 | once completed, no sequence of clicks and drops changes the state |
| BathSteps.CompletionNeedsSixEvents | src/app/pages/tareas/banar/banar.page.ts:17-20 | completing the game from the start takes at least six events |
| BathSteps.FullBath | src/app/pages/tareas/banar/banar.page.ts:50-161 | the intended play-through reaches step 6, completed, 100 % and the Bebe picture, with 83.35 % after step 5; a soap drop at step 3 is ignored |
| Banar.Record | src/app/pages/tareas/banar/banar.page.ts:43-44 | one pass of the setup loop adds exactly the element's name when it is non-empty, maps it to the element's left/top, and leaves every other entry alone |
| Banar.Register | src/app/pages/tareas/banar/banar.page.ts:31-48 | after the setup loop the registry's names are the earlier ones plus every non-empty name an element carries |
| Banar.RegisterSkipsEmptyName | src/app/pages/tareas/banar/banar.page.ts:43-44 | an element without a data-name is never recorded |
| Banar.RegisterKeepsOthers | src/app/pages/tareas/banar/banar.page.ts:31-48 | a name no element carries keeps its earlier entry, or stays absent |
| Banar.RegisterLastWins | src/app/pages/tareas/banar/banar.page.ts:43-44 | a named element records its initial left/top, unless a later element with the same name overwrites it |
| Banar.BanarPage.constructor | src/app/pages/tareas/banar/banar.page.ts:14-29 | the page starts at step 0, not completed, 0 %, BebeSucio, with an empty registry and no drag |
| Banar.BanarPage.NgAfterViewInit | src/app/pages/tareas/banar/banar.page.ts:31-48 | the loop leaves the registry equal to the registry function of the elements in order, and keeps the invariant |
| Banar.BanarPage.OnBabyClick | src/app/pages/tareas/banar/banar.page.ts:50-62 | the fields change exactly as `Click` says, and the invariant is kept |
| Banar.BanarPage.StartDrag | src/app/pages/tareas/banar/banar.page.ts:64-84 | once completed, or without an element, nothing changes; otherwise the element becomes active and the offsets are pointer minus box corner |
| Banar.BanarPage.MoveDrag | src/app/pages/tareas/banar/banar.page.ts:86-99 | with an active element, its left plus the parent's left plus offsetX equals the pointer's x (likewise for y); with none, nothing changes |
| Banar.BanarPage.EndDrag | src/app/pages/tareas/banar/banar.page.ts:101-132 | the drag ends; the game state changes only on overlap, and then as `Drop` with the element's name; an element with a recorded rest position sits exactly there, and one without keeps its position |
| Banar.BanarPage.HandleDropOnBaby | src/app/pages/tareas/banar/banar.page.ts:134-155 | the fields change exactly as `Drop` says, and the invariant is kept |
| Banar.BanarPage.IncrementProgress | src/app/pages/tareas/banar/banar.page.ts:157-161 | the progress field becomes the value of the increment function |
| Home.BotonDe | src/app/home/home.page.ts:86-102 | each of the five buttons is chosen exactly by its names; Curar and Medicina both choose the medicine button |
| Home.EnVentana | src/app/home/home.page.ts:83 | only a non-empty window is ever open; an activity is open at its start instant when its window is non-empty, at the last instant before its deadline, and never at its deadline |
| Home.Esperado | src/app/home/home.page.ts:78-105 | after processing, a button is enabled iff it was enabled before or some open activity maps to it |
| Home.EsperadoSnoc | src/app/home/home.page.ts:85-103 | one more activity enables at most the one button its name maps to, and only if it is open |
| Home.OnlyEnables | src/app/home/home.page.ts:85-103 | no enabled button is disabled |
| Home.NothingOpenChangesNothing | src/app/home/home.page.ts:78-105 | a list without an open activity of a known name, the empty list included, changes no button |
| Home.OrderIndependent | src/app/home/home.page.ts:78-105 | two lists with the same activities, in any order, give the same buttons |
| Home.HomePage.constructor | src/app/home/home.page.ts:30-36 | all five buttons start disabled |
| Home.HomePage.ActualizarBotonesSegunActividades | src/app/home/home.page.ts:75-106 | the loop leaves the buttons equal to `Esperado` of the old buttons, the list and the instant |

## Left out

- Network and navigation: `cargarActividades` and `openActivities` (HTTP fetch, JSON parsing, the activity modal), `LoginPage.login`, `isLoggedIn`, `ngOnInit` and `logout`. They wrap an HTTP client, an unseen `Auth` service and the router.
- Date parsing: the current instant and each activity's start and deadline are integer parameters, not strings given to `new Date`.
- Browser layout: `getComputedStyle`, `parseFloat` and the `offsetLeft`/`offsetTop` fallback are abstracted. Each element's initial `left`/`top` fields are the position the page computes.
- Banar.BanarPage.NgAfterViewInit: does not model setting `position: absolute` or writing `left`/`top` back when the style has none, since in the model the style position already is the computed one.
- Banar.BanarPage.StartDrag: the choice among the handler's element, `currentTarget` and `target` is left to the caller, who passes the chosen element or null. The touch-versus-mouse choice of coordinates is also the caller's.
- `preventDefault`, pointer capture and the `dragging` CSS class have no effect on the modelled state and are left out.
- `console.debug` on an ignored drop is left out.
- Floating point: progress is exact integer hundredths. The exact sum k + 1666.67 hundredths always lies 1/6 of a hundredth away from the nearest rounding midpoint, and the double's error (about 1e-14) is far below that, so `toFixed(2)` rounds the double sum as the model rounds the exact one.
- Geometry: box coordinates, pointer coordinates and style positions are integers in the model, while the browser's are fractional CSS pixels. `MoveDrag`'s equation between position, parent box, offset and pointer therefore holds exactly only in the model.
- The page's HTML template, the stub task pages and the app configuration hold no logic and are not part of this model.
