/**
  The order commands of vk_lp_main.py (`handle_new`, `handle_my`,
  `handle_done`) over the active orders of the store. Reading the player
  record and the last order, and the progression update
  `finish_order_and_level`, belong to the database layer, which is not part
  of this model: the records are parameters and the progression is a
  function parameter. Message delivery is replaced by the returned reply.
 */
module Handlers {
  import opened Wrappers
  import opened Orders

  /** The celebration appended to the `done` reply at a milestone count. */
  datatype Milestone = GameComplete | TrophyGold | TrophyDiamond

  /** The `if/elif` chain on `n_total`: exactly one suffix at 40, 100 and
      200 completed orders, and none at any other count. */
  function MilestoneSuffix(nTotal: int): (m: Option<Milestone>)
    ensures m == Some(GameComplete) <==> nTotal == 40
    ensures m == Some(TrophyGold) <==> nTotal == 100
    ensures m == Some(TrophyDiamond) <==> nTotal == 200
    ensures m == None <==> nTotal != 40 && nTotal != 100 && nTotal != 200
  {
    if nTotal == 40 then Some(GameComplete)
    else if nTotal == 100 then Some(TrophyGold)
    else if nTotal == 200 then Some(TrophyDiamond)
    else None
  }

  /** What `finish_order_and_level` returns: the new completed count,
      whether the level changed, the title, and the new point total. */
  datatype Progress = Progress(nTotal: int, levelChanged: bool, title: string, totalCrosses: int)

  /** The `finish_order_and_level(db, user_id, tag, order_crosses)` call. */
  type Progression = (int, Option<string>, int) -> Progress

  datatype NewOutcome = AlreadyHasOrder | Created(reply: NewReply)

  datatype MyOutcome = NoOrderToShow | Current(dishes: seq<Dish>, total: int)

  datatype DoneOutcome =
    | NoOrderToFinish
    | Completed(points: int, levelChanged: bool, nTotal: int, title: string, totalCrosses: int, suffix: Option<Milestone>)

  /** The active orders of the players: at most one per player, keyed by
      the player's id. */
  class OrderStore {
    var active: map<int, ActiveOrder>

    constructor ()
      ensures active == map[]
    {
      active := map[];
    }

    /** `handle_new`: refused while the player has an active order, and
        nothing is saved; otherwise the order decided by the special-order
        rules becomes the player's active order. */
    method New(catalog: Catalog, user: User, last: Option<LastOrder>, check: (int, Flags) -> Option<Special>,
               choice: nat, shuffled: seq<Dish>) returns (outcome: NewOutcome)
      requires user.userId !in active && Generates(user, last, check) ==>
        0 in catalog && ValidDraw(catalog, user.level, choice, shuffled) && HasThreeDistinct(Unlocked(catalog, user.level))
      modifies this
      ensures user.userId in old(active) ==> outcome == AlreadyHasOrder && active == old(active)
      ensures user.userId !in old(active) ==>
        var r := NewOrderSpec(user, last, check, Drawn(catalog, user, last, check, choice, shuffled));
        outcome == Created(r.reply) && active == old(active)[user.userId := r.order]
    {
      if user.userId in active {
        return AlreadyHasOrder;
      }
      var r := NewOrderLogic(catalog, user, last, check, choice, shuffled);
      active := active[user.userId := r.order];
      outcome := Created(r.reply);
    }

    /** `handle_my`: the active order and its total, or the "no active
        order" reply; nothing changes. */
    method My(userId: int) returns (outcome: MyOutcome)
      ensures outcome.NoOrderToShow? <==> userId !in active
      ensures outcome.Current? ==> outcome.dishes == active[userId].dishes && outcome.total == Sum(active[userId].dishes)
    {
      if userId !in active {
        return NoOrderToShow;
      }
      var dishes := active[userId].dishes;
      outcome := Current(dishes, Sum(dishes));
    }

    /** `handle_done`: without an active order nothing changes; otherwise
        the progression receives the order's tag and the sum of its dish
        values, the active order is cleared, and the reply carries the
        progression's result and the milestone suffix for the new count. */
    method Done(userId: int, finish: Progression) returns (outcome: DoneOutcome)
      modifies this
      ensures userId !in old(active) ==> outcome == NoOrderToFinish && active == old(active)
      ensures userId in old(active) ==>
        var o := old(active)[userId];
        var p := finish(userId, o.tag, Sum(o.dishes));
        && outcome == Completed(Sum(o.dishes), p.levelChanged, p.nTotal, p.title, p.totalCrosses, MilestoneSuffix(p.nTotal))
        && active == old(active) - {userId}
    {
      if userId !in active {
        return NoOrderToFinish;
      }
      var order := active[userId];
      var orderCrosses := Sum(order.dishes);
      var p := finish(userId, order.tag, orderCrosses);
      active := active - {userId};
      outcome := Completed(orderCrosses, p.levelChanged, p.nTotal, p.title, p.totalCrosses, MilestoneSuffix(p.nTotal));
    }
  }

  /** A `new`, `my`, `done` sequence for a player without an active order:
      `my` shows the order just created and its total, the progression
      receives exactly that total, and the player ends with no active
      order. */
  method NewMyDone(store: OrderStore, catalog: Catalog, user: User, last: Option<LastOrder>,
                     check: (int, Flags) -> Option<Special>, choice: nat, shuffled: seq<Dish>, finish: Progression)
      returns (created: NewOutcome, shown: MyOutcome, done: DoneOutcome)
    requires Generates(user, last, check) ==>
      0 in catalog && ValidDraw(catalog, user.level, choice, shuffled) && HasThreeDistinct(Unlocked(catalog, user.level))
    requires user.userId !in store.active
    modifies store
    ensures var r := NewOrderSpec(user, last, check, Drawn(catalog, user, last, check, choice, shuffled));
      && created == Created(r.reply)
      && shown == Current(r.order.dishes, Sum(r.order.dishes))
      && done.Completed? && done.points == Sum(r.order.dishes)
    ensures store.active == old(store.active)
  {
    created := store.New(catalog, user, last, check, choice, shuffled);
    shown := store.My(user.userId);
    done := store.Done(user.userId, finish);
  }
}
