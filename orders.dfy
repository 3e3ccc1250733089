/**
  Order generation of vk_lp_main.py: the regular three-dish order
  (`generate_regular_order`), the order number (`_order_index`) and the
  special-order rules applied when a new order is created
  (`_vk_new_order_logic`).

  The dish catalog `DISHES_BY_LEVEL` is a parameter. The two random draws of
  the generator are inputs: the index `choice` that `random.choice` picks in
  the anchor pool, and `shuffled`, the order `random.shuffle` leaves the
  remaining pool in. `check_special_order` is a function parameter.
 */
module Orders {
  import opened Wrappers

  /** A dish of an order: its name and its point value ("crosses"). */
  datatype Dish = Dish(name: string, crosses: int)

  /** `DISHES_BY_LEVEL`: the dishes unlocked at each level. */
  type Catalog = map<int, seq<Dish>>

  /** `min(level, 3)`: the highest level whose dishes can appear. */
  function DishLevel(level: nat): (d: nat)
    ensures d <= 3 && d <= level && (d == level || d == 3)
  {
    if level < 3 then level else 3
  }

  /** `DISHES_BY_LEVEL.get(lv, [])`. */
  function LevelDishes(catalog: Catalog, lv: int): seq<Dish> {
    if lv in catalog then catalog[lv] else []
  }

  /** The dishes of levels `0 .. n - 1`, concatenated in level order. */
  function UnlockedBelow(catalog: Catalog, n: nat): (r: seq<Dish>)
    ensures forall lv, d :: 0 <= lv < n && d in LevelDishes(catalog, lv) ==> d in r
    ensures forall d :: d in r ==> exists lv :: 0 <= lv < n && d in LevelDishes(catalog, lv)
  {
    if n == 0 then [] else UnlockedBelow(catalog, n - 1) + LevelDishes(catalog, n - 1)
  }

  /** `opened`: the unlocked pool of a player at `level`. */
  function Unlocked(catalog: Catalog, level: nat): seq<Dish> {
    UnlockedBelow(catalog, DishLevel(level) + 1)
  }

  /** `DISHES_BY_LEVEL.get(dish_level, DISHES_BY_LEVEL[0])`: the pool the
      anchor is drawn from. The default is evaluated eagerly, so level 0 must
      be in the catalog. Every anchor candidate is unlocked. */
  function AnchorPool(catalog: Catalog, level: nat): (pool: seq<Dish>)
    requires 0 in catalog
    ensures DishLevel(level) in catalog ==> pool == catalog[DishLevel(level)]
    ensures DishLevel(level) !in catalog ==> pool == catalog[0]
    ensures forall d :: d in pool ==> d in Unlocked(catalog, level)
  {
    var dl := DishLevel(level);
    assert LevelDishes(catalog, 0) == catalog[0];
    if dl in catalog then
      assert LevelDishes(catalog, dl) == catalog[dl];
      catalog[dl]
    else catalog[0]
  }

  /** `[d for d in s if d != x]`. */
  function Without(s: seq<Dish>, x: Dish): (r: seq<Dish>)
    ensures forall d :: d in r <==> d in s && d != x
  {
    if s == [] then []
    else if s[0] == x then Without(s[1..], x)
    else [s[0]] + Without(s[1..], x)
  }

  predicate Distinct(s: seq<Dish>) {
    forall i, j :: 0 <= i < j < |s| ==> s[i] != s[j]
  }

  /** At least three distinct dishes occur in `s`. */
  predicate HasThreeDistinct(s: seq<Dish>) {
    exists i, j, k :: 0 <= i < |s| && 0 <= j < |s| && 0 <= k < |s| && s[i] != s[j] && s[j] != s[k] && s[i] != s[k]
  }

  /** One step of the generator's first loop:
      `if d not in take and len(take) < 3: take.append(d)`. */
  function Keep(take: seq<Dish>, d: Dish): seq<Dish> {
    if d !in take && |take| < 3 then take + [d] else take
  }

  /** `take` after the first loop has walked `s` left to right. */
  function Fill(take: seq<Dish>, s: seq<Dish>): seq<Dish>
    decreases |s|
  {
    if s == [] then take else Keep(Fill(take, s[..|s| - 1]), s[|s| - 1])
  }

  /** What the first loop guarantees: the start is kept as a prefix, at most
      three distinct dishes, each from the start or from `s`; and if fewer
      than three were collected, every dish of `s` was collected. */
  lemma {:induction false} FillSpec(take: seq<Dish>, s: seq<Dish>)
    requires Distinct(take) && |take| <= 3
    ensures var r := Fill(take, s);
      && |take| <= |r| <= 3 && r[..|take|] == take && Distinct(r)
      && (forall d :: d in r ==> d in take || d in s)
      && (|r| < 3 ==> forall d :: d in s ==> d in r)
    decreases |s|
  {
    if s != [] {
      var init := s[..|s| - 1];
      FillSpec(take, init);
      var r0 := Fill(take, init);
      assert forall d :: d in init ==> d in s;
      assert r0[..|take|] == take;
      var r := Keep(r0, s[|s| - 1]);
      if r != r0 {
        assert r[..|take|] == r0[..|take|];
      }
      assert forall d :: d in s ==> d in init || d == s[|s| - 1];
    }
  }

  /** A sequence holding three distinct dishes has at least three elements. */
  lemma ThreeNeedThree(s: seq<Dish>, a: Dish, b: Dish, c: Dish)
    requires a in s && b in s && c in s && a != b && b != c && a != c
    ensures |s| >= 3
  {
    var i :| 0 <= i < |s| && s[i] == a;
    var j :| 0 <= j < |s| && s[j] == b;
    var k :| 0 <= k < |s| && s[k] == c;
  }

  /** The requirements on the random draws: `choice` indexes the anchor pool
      and `shuffled` is a permutation of the unlocked pool without the anchor. */
  predicate ValidDraw(catalog: Catalog, level: nat, choice: nat, shuffled: seq<Dish>)
    requires 0 in catalog
  {
    && choice < |AnchorPool(catalog, level)|
    && multiset(shuffled) == multiset(Without(Unlocked(catalog, level), AnchorPool(catalog, level)[choice]))
  }

  /** The first loop's result for a draw. */
  function Greedy(catalog: Catalog, level: nat, choice: nat, shuffled: seq<Dish>): seq<Dish>
    requires 0 in catalog && ValidDraw(catalog, level, choice, shuffled)
  {
    Fill([AnchorPool(catalog, level)[choice]], shuffled)
  }

  /** The shuffled pool holds exactly the unlocked dishes other than the anchor. */
  lemma ShuffledMembers(catalog: Catalog, level: nat, choice: nat, shuffled: seq<Dish>)
    requires 0 in catalog && ValidDraw(catalog, level, choice, shuffled)
    ensures forall d :: d in shuffled <==> d in Unlocked(catalog, level) && d != AnchorPool(catalog, level)[choice]
  {
    var w := Without(Unlocked(catalog, level), AnchorPool(catalog, level)[choice]);
    assert forall d :: d in shuffled <==> d in multiset(shuffled);
    assert forall d :: d in w <==> d in multiset(w);
  }

  /** Whatever the first loop collects is the anchor first, then distinct
      unlocked dishes; when it collects fewer than three, it holds every
      unlocked dish. */
  lemma GreedyMembers(catalog: Catalog, level: nat, choice: nat, shuffled: seq<Dish>)
    requires 0 in catalog && ValidDraw(catalog, level, choice, shuffled)
    ensures var take := Greedy(catalog, level, choice, shuffled);
      && 1 <= |take| <= 3 && take[0] == AnchorPool(catalog, level)[choice] && Distinct(take)
      && (forall d :: d in take ==> d in Unlocked(catalog, level))
      && (|take| < 3 ==> forall d :: d in Unlocked(catalog, level) ==> d in take)
  {
    var cur := AnchorPool(catalog, level)[choice];
    var take := Greedy(catalog, level, choice, shuffled);
    FillSpec([cur], shuffled);
    ShuffledMembers(catalog, level, choice, shuffled);
    assert take[0] == cur by { assert take[..1] == [cur]; }
  }

  /** Three distinct dishes drawn from `pool` witness three distinct dishes in it. */
  lemma ThreeGiveThree(take: seq<Dish>, pool: seq<Dish>)
    requires |take| == 3 && Distinct(take)
    requires forall d :: d in take ==> d in pool
    ensures HasThreeDistinct(pool)
  {
    assert take[0] in pool && take[1] in pool && take[2] in pool;
    var i :| 0 <= i < |pool| && pool[i] == take[0];
    var j :| 0 <= j < |pool| && pool[j] == take[1];
    var k :| 0 <= k < |pool| && pool[k] == take[2];
  }

  /** Collecting fewer than three dishes, all of the pool among them, means
      the pool has no three distinct dishes. */
  lemma ShortMeansFew(take: seq<Dish>, pool: seq<Dish>)
    requires |take| < 3
    requires forall d :: d in pool ==> d in take
    ensures !HasThreeDistinct(pool)
  {
    if HasThreeDistinct(pool) {
      var i, j, k :| 0 <= i < |pool| && 0 <= j < |pool| && 0 <= k < |pool|
        && pool[i] != pool[j] && pool[j] != pool[k] && pool[i] != pool[k];
      ThreeNeedThree(take, pool[i], pool[j], pool[k]);
    }
  }

  /** The first loop collects three dishes exactly when the unlocked pool
      has three distinct dishes. */
  lemma GreedyFull(catalog: Catalog, level: nat, choice: nat, shuffled: seq<Dish>)
    requires 0 in catalog && ValidDraw(catalog, level, choice, shuffled)
    ensures |Greedy(catalog, level, choice, shuffled)| == 3 <==> HasThreeDistinct(Unlocked(catalog, level))
  {
    var pool := Unlocked(catalog, level);
    var take := Greedy(catalog, level, choice, shuffled);
    GreedyMembers(catalog, level, choice, shuffled);
    if |take| == 3 {
      ThreeGiveThree(take, pool);
    } else {
      ShortMeansFew(take, pool);
    }
  }

  /** One pass of the backfill's inner loop:
      `for d in DISHES_BY_LEVEL[0]: if d not in take: take.append(d);
       if len(take) == 3: break`. */
  function BackfillPass(take: seq<Dish>, level0: seq<Dish>): seq<Dish>
    decreases |level0|
  {
    if level0 == [] then take
    else
      var t := if level0[0] !in take then take + [level0[0]] else take;
      if |t| == 3 then t else BackfillPass(t, level0[1..])
  }

  /** A pass over dishes already taken changes nothing. */
  lemma {:induction false} BackfillPassStalls(take: seq<Dish>, level0: seq<Dish>)
    requires |take| < 3
    requires forall d :: d in level0 ==> d in take
    ensures BackfillPass(take, level0) == take
    decreases |level0|
  {
    if level0 != [] {
      assert forall d :: d in level0[1..] ==> d in level0;
      BackfillPassStalls(take, level0[1..]);
    }
  }

  /** The backfill loop `while len(take) < 3:` is dead code: when the first
      loop stops short of three dishes, every level-0 dish is already taken,
      so a pass of the loop body leaves `take` unchanged and the loop cannot
      make progress (`generate_regular_order` then never returns). */
  lemma BackfillIsDead(catalog: Catalog, level: nat, choice: nat, shuffled: seq<Dish>)
    requires 0 in catalog && ValidDraw(catalog, level, choice, shuffled)
    ensures var take := Greedy(catalog, level, choice, shuffled);
      |take| < 3 ==> BackfillPass(take, catalog[0]) == take
  {
    var take := Greedy(catalog, level, choice, shuffled);
    GreedyMembers(catalog, level, choice, shuffled);
    if |take| < 3 {
      assert LevelDishes(catalog, 0) == catalog[0];
      BackfillPassStalls(take, catalog[0]);
    }
  }

  /** `generate_regular_order(level)` for a catalog whose unlocked pool has
      three distinct dishes (with fewer, `generate_regular_order` never returns, see
      BackfillIsDead): the anchor from the top unlocked level first, then
      the first two dishes of the shuffled pool that are new. */
  method GenerateRegularOrder(catalog: Catalog, level: nat, choice: nat, shuffled: seq<Dish>) returns (take: seq<Dish>)
    requires 0 in catalog && ValidDraw(catalog, level, choice, shuffled)
    requires HasThreeDistinct(Unlocked(catalog, level))
    ensures take == Greedy(catalog, level, choice, shuffled)
    ensures |take| == 3 && Distinct(take)
    ensures take[0] == AnchorPool(catalog, level)[choice]
    ensures forall d :: d in take ==> d in Unlocked(catalog, level)
  {
    var dishLevel := if level < 3 then level else 3;
    var unlockedPool: seq<Dish> := [];
    for lv := 0 to dishLevel + 1
      invariant unlockedPool == UnlockedBelow(catalog, lv)
    {
      unlockedPool := unlockedPool + (if lv in catalog then catalog[lv] else []);
    }
    var currentPool := if dishLevel in catalog then catalog[dishLevel] else catalog[0];
    var cur := currentPool[choice];
    assert dishLevel == DishLevel(level) && unlockedPool == Unlocked(catalog, level);
    // `random.shuffle(pool)` for `pool = [d for d in opened if d != cur]`
    assert multiset(shuffled) == multiset(Without(unlockedPool, cur));
    take := [cur];
    for i := 0 to |shuffled|
      invariant take == Fill([cur], shuffled[..i])
    {
      assert shuffled[..i + 1][..i] == shuffled[..i];
      var d := shuffled[i];
      if d !in take && |take| < 3 {
        take := take + [d];
      }
    }
    assert shuffled[..|shuffled|] == shuffled;
    GreedyMembers(catalog, level, choice, shuffled);
    GreedyFull(catalog, level, choice, shuffled);
    // the backfill `while len(take) < 3` is not entered: take already has three
    take := take[..3];
  }

  /** `sum(c for (_, c) in dishes)`. */
  function Sum(dishes: seq<Dish>): int {
    if dishes == [] then 0 else dishes[0].crosses + Sum(dishes[1..])
  }

  lemma {:induction false} SumUpdateFirst(dishes: seq<Dish>, d: Dish)
    requires dishes != []
    ensures Sum(dishes[0 := d]) == Sum(dishes) - dishes[0].crosses + d.crosses
  {
    assert dishes[0 := d][1..] == dishes[1..];
  }

  /** `_order_index(total_orders)`: the 1-based number of the next order,
      with a missing count (`None`) or `0` both meaning no order yet. */
  function OrderIndex(totalOrders: Option<int>): (idx: int)
    ensures totalOrders.None? ==> idx == 1
    ensures totalOrders.Some? ==> idx - 1 == totalOrders.value
  {
    (if totalOrders.Some? && totalOrders.value != 0 then totalOrders.value else 0) + 1
  }

  /** `[(name, crosses * 2) for name, crosses in last_dishes]`. */
  function Doubled(dishes: seq<Dish>): (r: seq<Dish>)
    ensures |r| == |dishes|
    ensures forall i :: 0 <= i < |r| ==> r[i].name == dishes[i].name && r[i].crosses == 2 * dishes[i].crosses
  {
    if dishes == [] then [] else [Dish(dishes[0].name, 2 * dishes[0].crosses)] + Doubled(dishes[1..])
  }

  /** Doubling every dish doubles the order's total. */
  lemma {:induction false} DoubledSum(dishes: seq<Dish>)
    ensures Sum(Doubled(dishes)) == 2 * Sum(dishes)
  {
    if dishes != [] {
      DoubledSum(dishes[1..]);
      assert Doubled(dishes)[1..] == Doubled(dishes[1..]);
    }
  }

  function Max1(x: int): int { if x < 1 then 1 else x }

  /** `[(name, max(1, crosses // 2)) for name, crosses in dishes]`; Python's
      `//` floors, as Dafny's `/` does for a positive divisor. */
  function Halved(dishes: seq<Dish>): (r: seq<Dish>)
    ensures |r| == |dishes|
    ensures forall i :: 0 <= i < |r| ==> r[i].name == dishes[i].name && r[i].crosses == Max1(dishes[i].crosses / 2)
  {
    if dishes == [] then [] else [Dish(dishes[0].name, Max1(dishes[0].crosses / 2))] + Halved(dishes[1..])
  }

  /** The correction of the first dish would stay at least 1 without the
      `max(1, ...)` clamp. */
  predicate CorrectionFits(dishes: seq<Dish>) {
    var h := Halved(dishes);
    h == [] || Sum(h) == Sum(dishes) / 2 || h[0].crosses + (Sum(dishes) / 2 - Sum(h)) >= 1
  }

  /** The `half_new_order` transform: the halved dishes with the first one
      corrected by the rounding residual (clamped at 1), and the
      `half_crosses` reported in the reply. */
  function HalfOrder(dishes: seq<Dish>): (r: (seq<Dish>, int))
  {
    var halfTotal := Sum(dishes) / 2;
    var half := Halved(dishes);
    if half != [] && Sum(half) != halfTotal then
      var diff := halfTotal - Sum(half);
      (half[0 := Dish(half[0].name, Max1(half[0].crosses + diff))], halfTotal)
    else (half, Sum(half))
  }

  /** What the half order keeps and what it reports: names and their order
      unchanged, every value at least 1, the reported total always
      `total // 2`; the dishes really add up to the reported total exactly
      when the first-dish correction needs no clamping, and add up to more
      otherwise. */
  lemma HalfOrderSpec(dishes: seq<Dish>)
    ensures var (half, reported) := HalfOrder(dishes);
      && |half| == |dishes|
      && (forall i :: 0 <= i < |half| ==> half[i].name == dishes[i].name && half[i].crosses >= 1)
      && reported == Sum(dishes) / 2
      && (Sum(half) == reported <==> CorrectionFits(dishes))
      && (Sum(half) >= reported)
  {
    var h := Halved(dishes);
    if h == [] {
      assert dishes == [];
    } else if Sum(h) != Sum(dishes) / 2 {
      var diff := Sum(dishes) / 2 - Sum(h);
      SumUpdateFirst(h, Dish(h[0].name, Max1(h[0].crosses + diff)));
    }
  }

  /** The clamp shows: three one-point dishes halve to one point each, so
      the order is worth 3 while the reply announces `3 // 2 == 1`. */
  lemma HalfOrderOverReports()
    ensures var dishes := [Dish("a", 1), Dish("b", 1), Dish("c", 1)];
      HalfOrder(dishes).1 == 1 && Sum(HalfOrder(dishes).0) == 3
  {
    var dishes := [Dish("a", 1), Dish("b", 1), Dish("c", 1)];
    assert Sum(dishes) == 3;
    assert Halved(dishes) == dishes;
  }

  /** The four achievement flags of a player. */
  datatype Flags = Flags(studentDone: bool, criticDone: bool, dirtyPlateDone: bool, secondChefDone: bool)

  /** The player record as `fetch_user` returns it (the fields used here). */
  datatype User = User(userId: int, level: nat, totalOrders: int, flags: Flags)

  /** The last completed order as `get_last_order` returns it. */
  datatype LastOrder = LastOrder(dishes: seq<Dish>, crosses: int, tag: Option<string>)

  /** The `type` of a special order's configuration (`"regular"` when the
      key is absent); anything else is kept as `OtherType`. */
  datatype Directive = DoublePrevious | HalfNewOrder | Regular(dish: Dish) | OtherType(kind: string)

  /** What `check_special_order` returns when a special order applies:
      its tag and its configuration. */
  datatype Special = Special(tag: string, directive: Directive)

  /** An active order as `save_active_order` stores it. */
  datatype ActiveOrder = ActiveOrder(dishes: seq<Dish>, tag: Option<string>)

  /** The template parameters of the reply to a new order (the templates
      themselves are not modelled). */
  datatype NewReply =
    | DoubledText(doubledCrosses: int)
    | HalfText(halfCrosses: int, dishes: seq<Dish>)
    | FixedText
    | RegularText(orderNumber: int, dishes: seq<Dish>, total: int)

  /** The decision of a new order: the order saved and the reply sent. */
  datatype NewOrder = NewOrder(order: ActiveOrder, reply: NewReply)

  /** Python truthiness of the stored tag. */
  predicate Truthy(tag: Option<string>) {
    tag.Some? && tag.value != ""
  }

  /** `last_order_was_special`: the last order is looked up only when the
      player has completed orders, and counts when its tag is truthy. */
  predicate LastWasSpecial(user: User, last: Option<LastOrder>) {
    user.totalOrders > 0 && last.Some? && Truthy(last.value.tag)
  }

  /** `special_result`: `check_special_order` is consulted only when the last
      order was not special. */
  function SpecialResult(user: User, last: Option<LastOrder>, check: (int, Flags) -> Option<Special>): Option<Special> {
    if LastWasSpecial(user, last) then None else check(OrderIndex(Some(user.totalOrders)), user.flags)
  }

  /** The fall-through: the generated order, untagged, with its number and
      total in the reply. */
  function RegularOrder(user: User, generated: seq<Dish>): NewOrder {
    NewOrder(ActiveOrder(generated, None), RegularText(OrderIndex(Some(user.totalOrders)), generated, Sum(generated)))
  }

  /** `_vk_new_order_logic`, given what `generate_regular_order` returns if it
      is called (it is called once, either by the half order or by the
      fall-through). */
  function NewOrderSpec(user: User, last: Option<LastOrder>, check: (int, Flags) -> Option<Special>, generated: seq<Dish>): NewOrder {
    match SpecialResult(user, last, check)
    case None => RegularOrder(user, generated)
    case Some(Special(tag, directive)) =>
      match directive
      case DoublePrevious =>
        if last.Some? then
          NewOrder(ActiveOrder(Doubled(last.value.dishes), Some(tag)), DoubledText(last.value.crosses * 2))
        else RegularOrder(user, generated)
      case HalfNewOrder =>
        var (half, reported) := HalfOrder(generated);
        NewOrder(ActiveOrder(half, Some(tag)), HalfText(reported, half))
      case Regular(dish) =>
        NewOrder(ActiveOrder([dish], Some(tag)), FixedText)
      case OtherType(_) => RegularOrder(user, generated)
  }

  /** After a special order, the next one is always regular and untagged,
      whatever `check_special_order` would say. */
  lemma SuppressionIgnoresCheck(user: User, last: Option<LastOrder>, check1: (int, Flags) -> Option<Special>,
                                check2: (int, Flags) -> Option<Special>, generated: seq<Dish>)
    requires LastWasSpecial(user, last)
    ensures NewOrderSpec(user, last, check1, generated) == NewOrderSpec(user, last, check2, generated)
    ensures NewOrderSpec(user, last, check1, generated).order == ActiveOrder(generated, None)
  {
  }

  /** `double_previous` with a last order: every value doubled, names kept,
      the directive's tag saved, and the order worth twice the last one. */
  lemma DoublePreviousSpec(user: User, last: Option<LastOrder>, check: (int, Flags) -> Option<Special>, generated: seq<Dish>, tag: string)
    requires SpecialResult(user, last, check) == Some(Special(tag, DoublePrevious))
    requires last.Some?
    ensures var o := NewOrderSpec(user, last, check, generated).order;
      && o.tag == Some(tag)
      && |o.dishes| == |last.value.dishes|
      && (forall i :: 0 <= i < |o.dishes| ==>
            o.dishes[i].name == last.value.dishes[i].name && o.dishes[i].crosses == 2 * last.value.dishes[i].crosses)
      && Sum(o.dishes) == 2 * Sum(last.value.dishes)
  {
    DoubledSum(last.value.dishes);
  }

  /** `double_previous` without a last order, or a configuration of an
      unknown type, falls through to the regular order. */
  lemma FallThroughSpec(user: User, last: Option<LastOrder>, check: (int, Flags) -> Option<Special>, generated: seq<Dish>)
    requires SpecialResult(user, last, check).Some?
    requires var d := SpecialResult(user, last, check).value.directive;
      (d.DoublePrevious? && last.None?) || d.OtherType?
    ensures NewOrderSpec(user, last, check, generated) == RegularOrder(user, generated)
    ensures NewOrderSpec(user, last, check, generated).order.tag == None
  {
  }

  /** `half_new_order` saves the halved generated order under the
      directive's tag and reports `total // 2` of the generated order. */
  lemma HalfNewOrderSpec(user: User, last: Option<LastOrder>, check: (int, Flags) -> Option<Special>, generated: seq<Dish>, tag: string)
    requires SpecialResult(user, last, check) == Some(Special(tag, HalfNewOrder))
    ensures var r := NewOrderSpec(user, last, check, generated);
      && r.order.tag == Some(tag)
      && |r.order.dishes| == |generated|
      && (forall i :: 0 <= i < |generated| ==> r.order.dishes[i].name == generated[i].name && r.order.dishes[i].crosses >= 1)
      && r.reply == HalfText(Sum(generated) / 2, r.order.dishes)
      && (Sum(r.order.dishes) == Sum(generated) / 2 <==> CorrectionFits(generated))
  {
    HalfOrderSpec(generated);
  }

  /** A `regular` directive saves its one fixed dish under the directive's
      tag, whatever the generator would have drawn. */
  lemma FixedDishSpec(user: User, last: Option<LastOrder>, check: (int, Flags) -> Option<Special>, generated: seq<Dish>, tag: string, dish: Dish)
    requires SpecialResult(user, last, check) == Some(Special(tag, Regular(dish)))
    ensures NewOrderSpec(user, last, check, generated) == NewOrder(ActiveOrder([dish], Some(tag)), FixedText)
  {
  }

  /** Whether the decision calls `generate_regular_order`: every path except
      `double_previous` with a last order and the fixed-dish directive. */
  predicate Generates(user: User, last: Option<LastOrder>, check: (int, Flags) -> Option<Special>) {
    match SpecialResult(user, last, check)
    case None => true
    case Some(Special(_, directive)) =>
      match directive
      case DoublePrevious => last.None?
      case HalfNewOrder => true
      case Regular(_) => false
      case OtherType(_) => true
  }

  /** On the paths that do not call the generator, the decision does not
      depend on what it would have drawn. */
  lemma NoDrawNeeded(user: User, last: Option<LastOrder>, check: (int, Flags) -> Option<Special>, g1: seq<Dish>, g2: seq<Dish>)
    requires !Generates(user, last, check)
    ensures NewOrderSpec(user, last, check, g1) == NewOrderSpec(user, last, check, g2)
    ensures NewOrderSpec(user, last, check, g1).order.tag.Some?
  {
  }

  /** What the generator draws when the decision calls it (`[]` when it
      does not, which no such path reads). */
  function Drawn(catalog: Catalog, user: User, last: Option<LastOrder>, check: (int, Flags) -> Option<Special>,
                 choice: nat, shuffled: seq<Dish>): seq<Dish>
    requires Generates(user, last, check) ==> 0 in catalog && ValidDraw(catalog, user.level, choice, shuffled)
  {
    if Generates(user, last, check) then Greedy(catalog, user.level, choice, shuffled) else []
  }

  /** A regular order carries the next order number: the completed count
      plus one. */
  lemma RegularOrderSpec(user: User, generated: seq<Dish>)
    ensures var r := RegularOrder(user, generated);
      && r.order.tag == None && r.order.dishes == generated
      && r.reply.orderNumber == user.totalOrders + 1
  {
  }

  /** `_vk_new_order_logic` with its call to `generate_regular_order`: the
      order saved and the reply. */
  method NewOrderLogic(catalog: Catalog, user: User, last: Option<LastOrder>, check: (int, Flags) -> Option<Special>,
                       choice: nat, shuffled: seq<Dish>) returns (r: NewOrder)
    requires Generates(user, last, check) ==>
      0 in catalog && ValidDraw(catalog, user.level, choice, shuffled) && HasThreeDistinct(Unlocked(catalog, user.level))
    ensures r == NewOrderSpec(user, last, check, Drawn(catalog, user, last, check, choice, shuffled))
  {
    var special := if LastWasSpecial(user, last) then None else check(OrderIndex(Some(user.totalOrders)), user.flags);
    if special.Some? {
      var tag := special.value.tag;
      match special.value.directive {
        case DoublePrevious =>
          if last.Some? {
            return NewOrder(ActiveOrder(Doubled(last.value.dishes), Some(tag)), DoubledText(last.value.crosses * 2));
          }
        case HalfNewOrder =>
          var dishes := GenerateRegularOrder(catalog, user.level, choice, shuffled);
          var halfTotal := Sum(dishes) / 2;
          var half := Halved(dishes);
          var halfCrosses := Sum(half);
          if half != [] && halfCrosses != halfTotal {
            var diff := halfTotal - halfCrosses;
            half := half[0 := Dish(half[0].name, Max1(half[0].crosses + diff))];
            halfCrosses := halfTotal;
          }
          return NewOrder(ActiveOrder(half, Some(tag)), HalfText(halfCrosses, half));
        case Regular(dish) =>
          return NewOrder(ActiveOrder([dish], Some(tag)), FixedText);
        case OtherType(_) =>
      }
    }
    var dishes := GenerateRegularOrder(catalog, user.level, choice, shuffled);
    r := NewOrder(ActiveOrder(dishes, None), RegularText(OrderIndex(Some(user.totalOrders)), dishes, Sum(dishes)));
  }
}
