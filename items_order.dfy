/**
 * The `useItemsOrder` hook: `updateItemsOrder(containers)` renumbers every
 * item's `position` to its index in its container, sends that order to the
 * server with one PATCH request, alerts the error if the request fails and
 * raises an `isUpdating` flag when an update starts and lowers it when any
 * update settles.
 */
module ItemsOrder {

  /** The hook's own item shape: an id and a position. */
  datatype ItemOrder = ItemOrder(id: string, position: int)

  /** The hook's own container shape: an id and its items in display order. */
  datatype ContainerOrder = ContainerOrder(id: string, items: seq<ItemOrder>)

  /** The ids of `items`, in order. */
  function ItemIds(items: seq<ItemOrder>): seq<string> {
    seq(|items|, k requires 0 <= k < |items| => items[k].id)
  }

  /** Every item's position is its index: positions run 0, 1, ..., n-1. */
  predicate Numbered(items: seq<ItemOrder>) {
    forall k :: 0 <= k < |items| ==> items[k].position == k
  }

  /** The items of one container with each `position` replaced by the item's index. */
  function RenumberItems(items: seq<ItemOrder>): (r: seq<ItemOrder>)
    ensures ItemIds(r) == ItemIds(items)
    ensures Numbered(r)
  {
    seq(|items|, k requires 0 <= k < |items| => ItemOrder(items[k].id, k))
  }

  /** The ids of `cs`, in order. */
  function ContainerIds(cs: seq<ContainerOrder>): seq<string> {
    seq(|cs|, k requires 0 <= k < |cs| => cs[k].id)
  }

  /** The payload `containersData` sent to the server. */
  function ContainersData(cs: seq<ContainerOrder>): (r: seq<ContainerOrder>)
    ensures ContainerIds(r) == ContainerIds(cs)
    ensures forall k :: 0 <= k < |r| ==> ItemIds(r[k].items) == ItemIds(cs[k].items) && Numbered(r[k].items)
  {
    seq(|cs|, k requires 0 <= k < |cs| => ContainerOrder(cs[k].id, RenumberItems(cs[k].items)))
  }

  /** Items that are already numbered by index are left exactly as they are. */
  lemma RenumberNumbered(items: seq<ItemOrder>)
    requires Numbered(items)
    ensures RenumberItems(items) == items
  {
    var r := RenumberItems(items);
    forall k | 0 <= k < |items|
      ensures r[k] == items[k]
    {
      assert ItemIds(r)[k] == ItemIds(items)[k];
    }
  }

  /** Renumbering an already renumbered board changes nothing. */
  lemma ContainersDataIdempotent(cs: seq<ContainerOrder>)
    ensures ContainersData(ContainersData(cs)) == ContainersData(cs)
  {
    var once := ContainersData(cs);
    var twice := ContainersData(once);
    forall k | 0 <= k < |once|
      ensures twice[k] == once[k]
    {
      RenumberNumbered(once[k].items);
      assert ContainerIds(twice)[k] == ContainerIds(once)[k];
    }
  }

  /**
   * The payload depends on the ids alone: two boards with the same container
   * ids and the same item ids, in the same order, give the same payload,
   * whatever positions they carried.
   */
  lemma ContainersDataIgnoresPositions(a: seq<ContainerOrder>, b: seq<ContainerOrder>)
    requires ContainerIds(a) == ContainerIds(b)
    requires |a| == |b| && forall k :: 0 <= k < |a| ==> ItemIds(a[k].items) == ItemIds(b[k].items)
    ensures ContainersData(a) == ContainersData(b)
  {
    var ra := ContainersData(a);
    var rb := ContainersData(b);
    forall k | 0 <= k < |a|
      ensures ra[k] == rb[k]
    {
      assert ContainerIds(a)[k] == ContainerIds(b)[k];
      var ia := ra[k].items;
      var ib := rb[k].items;
      forall j | 0 <= j < |ia|
        ensures ia[j] == ib[j]
      {
        assert ItemIds(ia)[j] == ItemIds(ib)[j];
      }
    }
  }

  /** How the PATCH request ends: accepted, or rejected with an error. */
  datatype PatchOutcome = Patched | Failed(error: string)

  /** One PATCH request sent by `updateItemsOrder`: its payload, and whether it has settled. */
  datatype Patch = Patch(payload: seq<ContainerOrder>, settled: bool)

  /**
   * The hook's state. `updateItemsOrder` runs in two steps split at its
   * `await`: UpdateItemsOrder raises the flag and sends the request;
   * PatchSettled handles its outcome. `patches` records the requests sent,
   * `alerts` the errors shown to the user.
   */
  class ItemsOrderHook {
    var isUpdating: bool
    var patches: seq<Patch>
    var alerts: seq<string>

    /** `useState(false)`: the flag starts down, nothing has been sent. */
    constructor ()
      ensures !isUpdating && patches == [] && alerts == []
    {
      isUpdating := false;
      patches := [];
      alerts := [];
    }

    /**
     * `updateItemsOrder(containers)` up to its `await`: the flag goes up and
     * the renumbered board is sent. Returns the request's index in `patches`.
     */
    method UpdateItemsOrder(containers: seq<ContainerOrder>) returns (t: nat)
      modifies this
      ensures isUpdating
      ensures t == |old(patches)| && patches == old(patches) + [Patch(ContainersData(containers), false)]
      ensures alerts == old(alerts)
    {
      isUpdating := true;
      var containersData := ContainersData(containers);
      t := |patches|;
      patches := patches + [Patch(containersData, false)];
    }

    /**
     * The rest of `updateItemsOrder` once request `t` settles: a failure is
     * alerted, and in every case the flag goes down.
     */
    method PatchSettled(t: nat, outcome: PatchOutcome)
      requires t < |patches| && !patches[t].settled
      modifies this
      ensures !isUpdating
      ensures patches == old(patches)[t := Patch(old(patches)[t].payload, true)]
      ensures alerts == if outcome.Failed? then old(alerts) + [outcome.error] else old(alerts)
    {
      patches := patches[t := Patch(patches[t].payload, true)];
      if outcome.Failed? {
        alerts := alerts + [outcome.error];
      }
      isUpdating := false;
    }
  }

  /**
   * One update on a fresh hook: the flag is up while the request is in
   * flight and down after it settles, whether it succeeds or fails; a
   * failure, and only a failure, is alerted; the payload is the renumbered board.
   */
  method UpdateOnce(containers: seq<ContainerOrder>, outcome: PatchOutcome)
    returns (during: bool, after: bool, alerted: seq<string>, sent: seq<ContainerOrder>)
    ensures during && !after
    ensures alerted == if outcome.Failed? then [outcome.error] else []
    ensures ContainerIds(sent) == ContainerIds(containers)
    ensures forall k :: 0 <= k < |sent| ==> ItemIds(sent[k].items) == ItemIds(containers[k].items) && Numbered(sent[k].items)
  {
    var hook := new ItemsOrderHook();
    var t := hook.UpdateItemsOrder(containers);
    during := hook.isUpdating;
    sent := hook.patches[t].payload;
    hook.PatchSettled(t, outcome);
    after := hook.isUpdating;
    alerted := hook.alerts;
  }

  /**
   * Two overlapping updates share one flag: when the first settles, the flag
   * goes down although the second request is still in flight.
   */
  method OverlappingUpdates(first: seq<ContainerOrder>, second: seq<ContainerOrder>, outcome: PatchOutcome)
    returns (flag: bool, secondPending: bool)
    ensures !flag && secondPending
  {
    var hook := new ItemsOrderHook();
    var t1 := hook.UpdateItemsOrder(first);
    var t2 := hook.UpdateItemsOrder(second);
    hook.PatchSettled(t1, outcome);
    flag := hook.isUpdating;
    secondPending := !hook.patches[t2].settled;
  }
}
