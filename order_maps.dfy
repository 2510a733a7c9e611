/** `pkg/types/order_map.go`: orders by order ID, and order slices. */
module OrderMaps {
  import opened Orders

  /** The orders of `m` with the given status, as a set of keys. */
  function KeysWithStatus(m: map<nat, Order>, status: OrderStatus): set<nat> {
    set id | id in m && m[id].status == status
  }

  /** No key repeats in `ids`. */
  predicate Distinct(ids: seq<nat>) {
    forall i, j :: 0 <= i < j < |ids| ==> ids[i] != ids[j]
  }

  /** `types.OrderMap`: a Go map, so its methods update it in place. */
  class OrderMap {
    var orders: map<nat, Order>

    constructor ()
      ensures orders == map[]
    {
      orders := map[];
    }

    /** `OrderMap.Add`: stores the order under its ID, replacing any order there. */
    method Add(o: Order)
      modifies this
      ensures orders == old(orders)[o.orderId := o]
      ensures Exists(o.orderId)
    {
      orders := orders[o.orderId := o];
    }

    /** `OrderMap.Update`: replaces the order only when its ID is already present. */
    method Update(o: Order)
      modifies this
      ensures o.orderId in old(orders) ==> orders == old(orders)[o.orderId := o]
      ensures o.orderId !in old(orders) ==> orders == old(orders)
    {
      if o.orderId in orders {
        orders := orders[o.orderId := o];
      }
    }

    /** `OrderMap.Remove`: deletes the ID; removing an absent ID changes nothing. */
    method Remove(orderId: nat)
      modifies this
      ensures orders == old(orders) - {orderId}
      ensures orderId !in old(orders) ==> orders == old(orders)
      ensures !Exists(orderId)
    {
      orders := orders - {orderId};
    }

    /** `OrderMap.Exists`. */
    predicate Exists(orderId: nat)
      reads this
    {
      orderId in orders
    }

    /** `OrderMap.IDs`: every key once, in the map's (unspecified) iteration order. */
    method IDs() returns (ids: seq<nat>)
      ensures Distinct(ids)
      ensures forall id :: id in ids <==> Exists(id)
      ensures |ids| == |orders|
    {
      ids := [];
      var todo := orders.Keys;
      while todo != {}
        invariant todo <= orders.Keys
        invariant Distinct(ids)
        invariant forall id :: id in ids <==> id in orders && id !in todo
        invariant |ids| + |todo| == |orders.Keys|
        decreases todo
      {
        var id :| id in todo;
        ids := ids + [id];
        todo := todo - {id};
      }
    }

    /**
     * `OrderMap.FindByStatus`: exactly the orders with that status, one element per entry,
     * in the map's iteration order; `keys` names the entry each element comes from.
     */
    method FindByStatus(status: OrderStatus) returns (found: seq<Order>, ghost keys: seq<nat>)
      ensures |found| == |keys| && Distinct(keys)
      ensures forall id :: id in keys <==> id in KeysWithStatus(orders, status)
      ensures forall i :: 0 <= i < |keys| ==> keys[i] in orders && found[i] == orders[keys[i]]
      ensures forall i :: 0 <= i < |found| ==> found[i].status == status
    {
      found, keys := [], [];
      var todo := orders.Keys;
      while todo != {}
        invariant todo <= orders.Keys
        invariant |found| == |keys| && Distinct(keys)
        invariant forall id :: id in keys <==> id in KeysWithStatus(orders, status) && id !in todo
        invariant forall i :: 0 <= i < |keys| ==> keys[i] in orders && found[i] == orders[keys[i]]
        invariant forall i :: 0 <= i < |found| ==> found[i].status == status
        decreases todo
      {
        var id :| id in todo;
        if orders[id].status == status {
          found, keys := found + [orders[id]], keys + [id];
        }
        todo := todo - {id};
      }
    }

    /** `OrderMap.Filled`: `FindByStatus` for FILLED. */
    method Filled() returns (found: seq<Order>, ghost keys: seq<nat>)
      ensures |found| == |keys| && Distinct(keys)
      ensures forall id :: id in keys <==> id in KeysWithStatus(orders, StatusFilled)
      ensures forall i :: 0 <= i < |keys| ==> keys[i] in orders && found[i] == orders[keys[i]]
      ensures forall i :: 0 <= i < |found| ==> found[i].status == StatusFilled
    {
      found, keys := FindByStatus(StatusFilled);
    }

    /** `OrderMap.Canceled`: `FindByStatus` for CANCELED. */
    method Canceled() returns (found: seq<Order>, ghost keys: seq<nat>)
      ensures |found| == |keys| && Distinct(keys)
      ensures forall id :: id in keys <==> id in KeysWithStatus(orders, StatusCanceled)
      ensures forall i :: 0 <= i < |keys| ==> keys[i] in orders && found[i] == orders[keys[i]]
      ensures forall i :: 0 <= i < |found| ==> found[i].status == StatusCanceled
    {
      found, keys := FindByStatus(StatusCanceled);
    }

    /** `OrderMap.Orders`: one element per entry, in the map's iteration order. */
    method Orders() returns (all: seq<Order>, ghost keys: seq<nat>)
      ensures |all| == |keys| == |orders| && Distinct(keys)
      ensures forall id :: id in keys <==> id in orders
      ensures forall i :: 0 <= i < |keys| ==> keys[i] in orders && all[i] == orders[keys[i]]
      ensures forall id :: id in orders ==> orders[id] in all
      ensures forall o :: o in all ==> o in orders.Values
    {
      all, keys := [], [];
      var todo := orders.Keys;
      while todo != {}
        invariant todo <= orders.Keys
        invariant |all| == |keys| && Distinct(keys)
        invariant forall id :: id in keys <==> id in orders && id !in todo
        invariant |keys| + |todo| == |orders.Keys|
        invariant forall i :: 0 <= i < |keys| ==> keys[i] in orders && all[i] == orders[keys[i]]
        decreases todo
      {
        var id :| id in todo;
        all, keys := all + [orders[id]], keys + [id];
        todo := todo - {id};
      }
      forall id | id in orders
        ensures orders[id] in all
      {
        var i :| 0 <= i < |keys| && keys[i] == id;
        assert all[i] == orders[id];
      }
    }

    /** `OrderMap.Backup`: the backup form of every entry, one per entry. */
    method Backup() returns (forms: seq<SubmitOrder>, ghost keys: seq<nat>)
      ensures |forms| == |keys| == |orders| && Distinct(keys)
      ensures forall id :: id in keys <==> id in orders
      ensures forall i :: 0 <= i < |keys| ==> keys[i] in orders && forms[i] == orders[keys[i]].Backup()
      ensures forall id :: id in orders ==> orders[id].Backup() in forms
    {
      forms, keys := [], [];
      var todo := orders.Keys;
      while todo != {}
        invariant todo <= orders.Keys
        invariant |forms| == |keys| && Distinct(keys)
        invariant forall id :: id in keys <==> id in orders && id !in todo
        invariant |keys| + |todo| == |orders.Keys|
        invariant forall i :: 0 <= i < |keys| ==> keys[i] in orders && forms[i] == orders[keys[i]].Backup()
        decreases todo
      {
        var id :| id in todo;
        forms, keys := forms + [orders[id].Backup()], keys + [id];
        todo := todo - {id};
      }
      forall id | id in orders
        ensures orders[id].Backup() in forms
      {
        var i :| 0 <= i < |keys| && keys[i] == id;
        assert forms[i] == orders[id].Backup();
      }
    }
  }

  /** `OrderSlice.IDs`: the order IDs, one per order, in slice order. */
  method OrderSliceIDs(s: seq<Order>) returns (ids: seq<nat>)
    ensures |ids| == |s|
    ensures forall i :: 0 <= i < |s| ==> ids[i] == s[i].orderId
  {
    ids := [];
    var i := 0;
    while i < |s|
      invariant 0 <= i <= |s|
      invariant |ids| == i
      invariant forall k :: 0 <= k < i ==> ids[k] == s[k].orderId
    {
      ids := ids + [s[i].orderId];
      i := i + 1;
    }
  }
}
