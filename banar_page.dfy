/**
 * The bathing page component (`BanarPage`): the game state of BathSteps held
 * in fields and changed in place by the page's event handlers, plus the
 * drag-and-drop bookkeeping for the draggable objects.
 *
 * The browser is abstracted away: each element's style position is an
 * integer pair of fields, and every bounding box or pointer coordinate the
 * handlers would query is passed in as a parameter.
 */
module Banar {
  import opened Geometry
  import opened BathSteps

  /**
   * A draggable element: its `data-name` attribute ("" when it has none)
   * and its style `left`/`top`, relative to its parent.
   */
  class Item {
    const name: string
    var left: int
    var top: int

    constructor (name: string, left: int, top: int)
      ensures this.name == name && this.left == left && this.top == top
    {
      this.name := name;
      this.left := left;
      this.top := top;
    }
  }

  /** The rest position the setup loop records for one element, if any. */
  function Record(m: map<string, Pos>, it: Item): (r: map<string, Pos>)
    reads it
    ensures r.Keys == if it.name == "" then m.Keys else m.Keys + {it.name}
    ensures it.name != "" ==> r[it.name] == Pos(it.left, it.top)
    ensures forall n :: n in m && n != it.name ==> r[n] == m[n]
  {
    if it.name != "" then m[it.name := Pos(it.left, it.top)] else m
  }

  /**
   * The rest positions after the setup loop has visited `items` in order,
   * starting from `m`. Like `Map.set`, a later element with the same name
   * overwrites an earlier one.
   */
  function Register(m: map<string, Pos>, items: seq<Item>): (r: map<string, Pos>)
    reads items
    ensures r.Keys == m.Keys + Names(items)
    decreases |items|
  {
    if items == [] then m
    else
      NamesSnoc(items);
      Record(Register(m, items[..|items| - 1]), items[|items| - 1])
  }

  /** The non-empty names the elements carry. */
  ghost function Names(items: seq<Item>): set<string>
    reads items
  {
    set i | 0 <= i < |items| && items[i].name != "" :: items[i].name
  }

  lemma NamesSnoc(items: seq<Item>)
    requires items != []
    ensures var last := items[|items| - 1];
            Names(items) == Names(items[..|items| - 1]) + (if last.name != "" then {last.name} else {})
  {
    var k := |items| - 1;
    var front := items[..k];
    forall n | n in Names(items)
      ensures n in Names(front) + (if items[k].name != "" then {items[k].name} else {})
    {
      var i :| 0 <= i < |items| && items[i].name != "" && items[i].name == n;
      if i < k {
        assert front[i] == items[i];
      }
    }
    forall n | n in Names(front)
      ensures n in Names(items)
    {
      var i :| 0 <= i < |front| && front[i].name != "" && front[i].name == n;
      assert items[i] == front[i];
    }
  }

  /** The empty name is never recorded. */
  lemma {:induction false} RegisterSkipsEmptyName(m: map<string, Pos>, items: seq<Item>)
    ensures "" in Register(m, items) <==> "" in m
    decreases |items|
  {
    if items != [] {
      RegisterSkipsEmptyName(m, items[..|items| - 1]);
    }
  }

  /** A name that no element carries keeps its earlier entry, or stays absent. */
  lemma {:induction false} RegisterKeepsOthers(m: map<string, Pos>, items: seq<Item>, n: string)
    requires forall i :: 0 <= i < |items| ==> items[i].name != n
    ensures n in Register(m, items) <==> n in m
    ensures n in m ==> Register(m, items)[n] == m[n]
    decreases |items|
  {
    if items != [] {
      var front := items[..|items| - 1];
      assert forall i :: 0 <= i < |front| ==> front[i].name != n by {
        forall i | 0 <= i < |front| ensures front[i].name != n {
          assert front[i] == items[i];
        }
      }
      RegisterKeepsOthers(m, front, n);
    }
  }

  /** No element after position `i` carries the name of element `i`. */
  ghost predicate LastOfName(items: seq<Item>, i: nat)
    reads items
    requires i < |items|
  {
    forall j :: i < j < |items| ==> items[j].name != items[i].name
  }

  lemma LastOfNameInPrefix(items: seq<Item>, i: nat, k: nat)
    requires i < k <= |items| && LastOfName(items, i)
    ensures LastOfName(items[..k], i)
  {
    var front := items[..k];
    forall j | i < j < |front| ensures front[j].name != front[i].name {
      assert front[j] == items[j] && front[i] == items[i];
    }
  }

  /**
   * A named element that no later element shares its name with leaves its
   * initial position in the registry: the last element of a name wins.
   */
  lemma {:induction false} RegisterLastWins(m: map<string, Pos>, items: seq<Item>, i: nat)
    requires i < |items| && items[i].name != ""
    requires LastOfName(items, i)
    ensures items[i].name in Register(m, items)
    ensures Register(m, items)[items[i].name] == Pos(items[i].left, items[i].top)
    decreases |items|
  {
    var k := |items| - 1;
    var front := items[..k];
    assert Register(m, items) == Record(Register(m, front), items[k]);
    if i < k {
      LastOfNameInPrefix(items, i, k);
      assert front[i] == items[i];
      RegisterLastWins(m, front, i);
      assert items[k].name != items[i].name;
    }
  }

  class BanarPage {
    var progress: int
    var completed: bool
    var step: int
    var babyImage: string

    /** Rest position of each draggable object, by `data-name`. */
    var originalPositions: map<string, Pos>

    /** The drag session: the element being dragged and the pointer's offset inside it. */
    var activeItem: Item?
    var offsetX: int
    var offsetY: int

    /** The game state held in the fields. */
    function State(): Game
      reads this
    {
      Game(step, progress, completed, babyImage)
    }

    ghost predicate Valid()
      reads this
    {
      Inv(State()) && "" !in originalPositions
    }

    constructor ()
      ensures Valid() && State() == Initial
      ensures originalPositions == map[] && activeItem == null
      ensures offsetX == 0 && offsetY == 0
    {
      progress := 0;
      completed := false;
      step := 0;
      babyImage := BEBE_SUCIO;
      originalPositions := map[];
      activeItem := null;
      offsetX := 0;
      offsetY := 0;
    }

    /**
     * `ngAfterViewInit`: records the initial position of every named
     * element, once the view is laid out.
     */
    method NgAfterViewInit(items: seq<Item>)
      requires Valid()
      modifies this`originalPositions
      ensures Valid()
      ensures originalPositions == Register(old(originalPositions), items)
    {
      ghost var start := originalPositions;
      for i := 0 to |items|
        invariant "" !in originalPositions
        invariant originalPositions == Register(start, items[..i])
      {
        assert items[..i + 1][..i] == items[..i];
        assert Register(start, items[..i + 1]) == Record(originalPositions, items[i]);
        var el := items[i];
        var name := el.name;
        if name != "" {
          originalPositions := originalPositions[name := Pos(el.left, el.top)];
        }
      }
      assert items[..|items|] == items;
    }

    /** `onBabyClick`: into the tub at step 0, out of it at step 4. */
    method OnBabyClick()
      requires Valid()
      modifies this`step, this`babyImage, this`progress
      ensures Valid()
      ensures State() == Click(old(State()))
    {
      ClickStep(State());
      if completed {
        return;
      }
      if step == 0 {
        step := 1;
        babyImage := BEBE_TINA;
        IncrementProgress(false);
      } else if step == 4 {
        step := 5;
        babyImage := BEBE_MOJADO;
        IncrementProgress(false);
      }
    }

    /**
     * `startDrag`: `el` is the element the pointer went down on (null when
     * the event names none), `rect` its bounding box and (`clientX`,
     * `clientY`) the pointer. A drag already in progress is replaced.
     */
    method StartDrag(el: Item?, rect: Rect, clientX: int, clientY: int)
      modifies this`activeItem, this`offsetX, this`offsetY
      ensures completed || el == null ==>
                activeItem == old(activeItem) && offsetX == old(offsetX) && offsetY == old(offsetY)
      ensures !completed && el != null ==>
                activeItem == el && offsetX == clientX - rect.left && offsetY == clientY - rect.top
    {
      if completed {
        return;
      }
      if el == null {
        return;
      }
      activeItem := el;
      offsetX := clientX - rect.left;
      offsetY := clientY - rect.top;
    }

    /**
     * `moveDrag`: keeps the pointer at the same offset inside the dragged
     * element; `parentRect` is the bounding box of the element's parent.
     */
    method MoveDrag(parentRect: Rect, clientX: int, clientY: int)
      modifies activeItem
      ensures activeItem != null ==>
                && activeItem.left + parentRect.left + offsetX == clientX
                && activeItem.top + parentRect.top + offsetY == clientY
    {
      if activeItem == null {
        return;
      }
      var left := clientX - parentRect.left - offsetX;
      var top := clientY - parentRect.top - offsetY;
      activeItem.left := left;
      activeItem.top := top;
    }

    /**
     * `endDrag`: `itemRect` is the dragged element's bounding box and
     * `babyRect` that of the baby. A drop over the baby is handed to
     * `HandleDropOnBaby`; whatever its outcome, the element goes back to its
     * rest position when it has one, and the drag session ends.
     */
    method EndDrag(itemRect: Rect, babyRect: Rect)
      requires Valid()
      modifies this`step, this`babyImage, this`progress, this`completed, this`activeItem, activeItem
      ensures Valid()
      ensures activeItem == null
      ensures old(activeItem) == null ==> State() == old(State())
      ensures old(activeItem) != null ==>
                State() == if Overlaps(itemRect, babyRect)
                           then Drop(old(State()), old(activeItem).name)
                           else old(State())
      ensures old(activeItem) != null && old(activeItem).name in originalPositions ==>
                && old(activeItem).left == originalPositions[old(activeItem).name].x
                && old(activeItem).top == originalPositions[old(activeItem).name].y
      ensures old(activeItem) != null && old(activeItem).name !in originalPositions ==>
                old(activeItem).left == old(activeItem.left) && old(activeItem).top == old(activeItem.top)
    {
      if activeItem == null {
        return;
      }
      var isOverlapping := !(itemRect.right < babyRect.left ||
                             itemRect.left > babyRect.right ||
                             itemRect.bottom < babyRect.top ||
                             itemRect.top > babyRect.bottom);
      if isOverlapping {
        HandleDropOnBaby(activeItem);
      }
      var name := activeItem.name;
      if name != "" {
        if name in originalPositions {
          var original := originalPositions[name];
          activeItem.left := original.x;
          activeItem.top := original.y;
        }
      }
      activeItem := null;
    }

    /**
     * `handleDropOnBaby`: advances the game when `el` is the object the
     * current step expects; any other drop is ignored.
     */
    method HandleDropOnBaby(el: Item)
      requires Valid()
      modifies this`step, this`babyImage, this`progress, this`completed
      ensures Valid()
      ensures State() == Drop(old(State()), el.name)
    {
      DropStep(State(), el.name);
      if completed {
        return;
      }
      var name := el.name;
      if step == 1 && name == "shampoo" {
        step := 2;
        IncrementProgress(false);
      } else if step == 2 && name == "jabon" {
        step := 3;
        IncrementProgress(false);
      } else if step == 3 && name == "regadera" {
        step := 4;
        IncrementProgress(false);
      } else if step == 5 && name == "toalla" {
        step := 6;
        babyImage := BEBE;
        IncrementProgress(true);
        completed := true;
      }
    }

    /** `incrementProgress`: one step's worth of progress, or 100 % on the final step. */
    method IncrementProgress(final: bool)
      modifies this`progress
      ensures progress == NextProgress(old(progress), final)
    {
      if final {
        progress := FULL;
        return;
      }
      progress := Min(FULL, RoundDiv(6 * progress + 10000, 6));
    }
  }
}
