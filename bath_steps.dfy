/**
 * The rules of the bathing mini-game as values: the six-step sequence, the
 * baby picture shown at each step, and the progress bar. `BanarPage` (in
 * banar_page.dfy) holds this state in its fields and is proved to follow
 * these functions.
 *
 * Steps: 0 not started, 1 baby in the tub, 2 shampoo, 3 soap ("jabon"),
 * 4 rinsed ("regadera"), 5 baby out of the tub, 6 dried ("toalla"), which
 * completes the game.
 *
 * Progress is kept in hundredths of a percent, so 100 % is 10000.
 */
module BathSteps {
  import opened Wrappers

  const BEBE_SUCIO: string := "assets/imgs/banar/BebeSucio.png"
  const BEBE_TINA: string := "assets/imgs/banar/BebeTina.png"
  const BEBE_MOJADO: string := "assets/imgs/banar/BebeMojado.png"
  const BEBE: string := "assets/imgs/banar/Bebe.png"

  const FINAL_STEP: int := 6
  /** 100 % in hundredths. */
  const FULL: int := 10000

  function Min(a: int, b: int): int
  {
    if a <= b then a else b
  }

  /** `n / d` rounded to the nearest integer, halves upwards. */
  function RoundDiv(n: int, d: int): int
    requires d > 0
  {
    (2 * n + d) / (2 * d)
  }

  /**
   * The progress `incrementProgress` assigns. A final increment sets 100 %. Otherwise the
   * percentage grows by 100/6, is rounded to two decimals (`toFixed(2)`)
   * and is capped at 100 %: in hundredths, p + 10000/6 = (6p + 10000)/6
   * rounded, which is always p + 1667, so the rounding error accumulates.
   */
  function NextProgress(p: int, final: bool): (r: int)
    ensures final ==> r == FULL
    ensures !final ==> r == Min(FULL, p + 1667)
    ensures 0 <= p <= FULL ==> p <= r <= FULL
  {
    if final then FULL else Min(FULL, RoundDiv(6 * p + 10000, 6))
  }

  /** The observable state of the game. */
  datatype Game = Game(step: int, progress: int, completed: bool, babyImage: string)

  /** The state a fresh page starts in. */
  const Initial: Game := Game(0, 0, false, BEBE_SUCIO)

  /** The object that must be dropped on the baby to leave `step`, if any. */
  function ExpectedObject(step: int): Option<string>
  {
    match step
    case 1 => Some("shampoo")
    case 2 => Some("jabon")
    case 3 => Some("regadera")
    case 5 => Some("toalla")
    case _ => None
  }

  /**
   * `onBabyClick`: puts the baby in the tub at step 0 and takes it out at
   * step 4; any other click, and every click after completion, is ignored.
   */
  function Click(g: Game): (r: Game)
    ensures r != g <==> !g.completed && (g.step == 0 || g.step == 4)
    ensures r != g ==> r.step == g.step + 1 && !r.completed
    ensures r != g ==> r.babyImage == (if g.step == 0 then BEBE_TINA else BEBE_MOJADO)
  {
    if g.completed then g
    else if g.step == 0 then
      g.(step := 1, babyImage := BEBE_TINA, progress := NextProgress(g.progress, false))
    else if g.step == 4 then
      g.(step := 5, babyImage := BEBE_MOJADO, progress := NextProgress(g.progress, false))
    else g
  }

  /**
   * `handleDropOnBaby`: the object named `name` was dropped on the baby.
   * Only the object expected at the current step advances the game; the
   * towel completes it. Any other drop is ignored.
   */
  function Drop(g: Game, name: string): (r: Game)
    ensures r != g <==> !g.completed && ExpectedObject(g.step) == Some(name)
    ensures r != g ==> r.step == g.step + 1
    ensures r != g ==> (r.completed <==> name == "toalla")
    ensures r.babyImage != g.babyImage ==> r.babyImage == BEBE && r.completed
  {
    if g.completed then g
    else if g.step == 1 && name == "shampoo" then
      g.(step := 2, progress := NextProgress(g.progress, false))
    else if g.step == 2 && name == "jabon" then
      g.(step := 3, progress := NextProgress(g.progress, false))
    else if g.step == 3 && name == "regadera" then
      g.(step := 4, progress := NextProgress(g.progress, false))
    else if g.step == 5 && name == "toalla" then
      g.(step := 6, babyImage := BEBE, progress := NextProgress(g.progress, true), completed := true)
    else g
  }

  /** Progress after `n` regular increments from zero. */
  function ProgressAfter(n: nat): int
  {
    if n == 0 then 0 else NextProgress(ProgressAfter(n - 1), false)
  }

  /** Regular increments add 16.67 % each until the cap. */
  lemma {:induction false} ProgressAfterClosed(n: nat)
    ensures ProgressAfter(n) == Min(FULL, 1667 * n)
  {
    if n > 0 {
      ProgressAfterClosed(n - 1);
    }
  }

  /**
   * The rounding error accumulates: five regular increments show 83.35 %,
   * not 83.33 %, and the towel step jumps to exactly 100 %.
   */
  lemma FiveIncrements()
    ensures ProgressAfter(5) == 8335
    ensures NextProgress(ProgressAfter(5), true) == FULL
    ensures NextProgress(ProgressAfter(5), false) == FULL
  {
    ProgressAfterClosed(5);
    ProgressAfterClosed(6);
  }

  /** The progress shown at each step. */
  function ProgressAt(step: int): int
    requires 0 <= step <= FINAL_STEP
  {
    if step == FINAL_STEP then FULL else ProgressAfter(step)
  }

  /** The baby picture shown at each step. */
  function ImageAt(step: int): string
  {
    if step == 0 then BEBE_SUCIO
    else if step <= 4 then BEBE_TINA
    else if step == 5 then BEBE_MOJADO
    else BEBE
  }

  /**
   * What holds of every state the page can reach: the step is in range,
   * the game is completed exactly at the last step, and progress and
   * picture are those of the step.
   */
  ghost predicate Inv(g: Game)
  {
    && 0 <= g.step <= FINAL_STEP
    && (g.completed <==> g.step == FINAL_STEP)
    && g.progress == ProgressAt(g.step)
    && g.babyImage == ImageAt(g.step)
  }

  lemma InitialInv()
    ensures Inv(Initial)
  {
  }

  /** In any reachable state progress lies in [0, 100 %]. */
  lemma InvProgressBounds(g: Game)
    requires Inv(g)
    ensures 0 <= g.progress <= FULL
  {
    if g.step < FINAL_STEP {
      ProgressAfterClosed(g.step);
    }
  }

  /** A click keeps the invariant, moves forward by at most one step and never lowers progress. */
  lemma ClickStep(g: Game)
    requires Inv(g)
    ensures Inv(Click(g))
    ensures Click(g).step == g.step || Click(g).step == g.step + 1
    ensures g.progress <= Click(g).progress
  {
    InvProgressBounds(g);
  }

  /** A drop keeps the invariant, moves forward by at most one step and never lowers progress. */
  lemma DropStep(g: Game, name: string)
    requires Inv(g)
    ensures Inv(Drop(g, name))
    ensures Drop(g, name).step == g.step || Drop(g, name).step == g.step + 1
    ensures g.progress <= Drop(g, name).progress
  {
    InvProgressBounds(g);
  }

  /** What reaches the game: a click on the baby, or an object released over it. */
  datatype Event = BabyClick | DropOnBaby(name: string)

  function Apply(g: Game, e: Event): Game
  {
    match e
    case BabyClick => Click(g)
    case DropOnBaby(name) => Drop(g, name)
  }

  /** The state after a sequence of events, in order. */
  function Run(g: Game, events: seq<Event>): Game
    decreases |events|
  {
    if events == [] then g else Run(Apply(g, events[0]), events[1..])
  }

  /**
   * Over a whole session the invariant holds, the step only moves forward
   * and by at most one per event, and progress never decreases.
   */
  lemma {:induction false} RunForward(g: Game, events: seq<Event>)
    requires Inv(g)
    ensures Inv(Run(g, events))
    ensures g.step <= Run(g, events).step <= g.step + |events|
    ensures g.progress <= Run(g, events).progress
    decreases |events|
  {
    if events != [] {
      match events[0] {
        case BabyClick => ClickStep(g);
        case DropOnBaby(name) => DropStep(g, name);
      }
      RunForward(Apply(g, events[0]), events[1..]);
    }
  }

  /** Once completed, no event changes anything. */
  lemma {:induction false} CompletedIsFinal(g: Game, events: seq<Event>)
    requires g.completed
    ensures Run(g, events) == g
    decreases |events|
  {
    if events != [] {
      CompletedIsFinal(Apply(g, events[0]), events[1..]);
    }
  }

  /** Completing the game takes at least six events, one per step. */
  lemma CompletionNeedsSixEvents(events: seq<Event>)
    requires Run(Initial, events).completed
    ensures |events| >= 6
  {
    InitialInv();
    RunForward(Initial, events);
    assert Run(Initial, events).step == FINAL_STEP;
  }

  /** The intended play-through, with progress after each step. */
  lemma FullBath()
    ensures var g1 := Click(Initial);
            var g2 := Drop(g1, "shampoo");
            var g3 := Drop(g2, "jabon");
            var g4 := Drop(g3, "regadera");
            var g5 := Click(g4);
            var g6 := Drop(g5, "toalla");
            && g1 == Game(1, 1667, false, BEBE_TINA)
            && g4 == Game(4, 6668, false, BEBE_TINA)
            && g5 == Game(5, 8335, false, BEBE_MOJADO)
            && g6 == Game(6, FULL, true, BEBE)
            && Drop(g3, "jabon") == g3
  {
    var g1 := Click(Initial);
    assert g1 == Game(1, 1667, false, BEBE_TINA);
    var g2 := Drop(g1, "shampoo");
    assert g2 == Game(2, 3334, false, BEBE_TINA);
    var g3 := Drop(g2, "jabon");
    assert g3 == Game(3, 5001, false, BEBE_TINA);
    var g4 := Drop(g3, "regadera");
    assert g4 == Game(4, 6668, false, BEBE_TINA);
    var g5 := Click(g4);
    assert g5 == Game(5, 8335, false, BEBE_MOJADO);
    var g6 := Drop(g5, "toalla");
    assert g6 == Game(6, FULL, true, BEBE);
  }
}
