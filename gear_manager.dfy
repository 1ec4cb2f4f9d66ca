/**
  The data logic of the gear view: the filtered inventory, the set-selection
  toggle, the quantity and maintenance handlers, the form validation and the
  local deletes. The handlers also call the gear service; those calls are the
  `Storage` methods, and the lemmas here relate the view's local copy to them.
*/
module GearManager {
  import opened Wrappers
  import opened Seqs
  import opened Keyed
  import opened Records
  import opened Calendar
  import opened GearService

  /** The view's local state. */
  datatype GearView = GearView(inventory: seq<GearItem>, gearSets: seq<GearSet>,
                               selectedGear: Option<GearItem>, selectedSet: Option<GearSet>)

  /** The category drop-down: 'all' or one category. */
  datatype CategoryFilter = All | Only(category: Category)

  predicate CategoryPasses(f: CategoryFilter, g: GearItem)
  {
    f.All? || g.category == f.category
  }

  /** The per-item test of `filteredInventory`, with the maintenance check it intends. */
  predicate Shown(g: GearItem, categoryFilter: CategoryFilter, maintenanceFilter: bool, nowMs: int)
  {
    CategoryPasses(categoryFilter, g) && (maintenanceFilter ==> NeedsMaintenance(g, nowMs))
  }

  /** `filteredInventory` as intended: the category test and, when switched on, the maintenance check. */
  function FilteredInventory(inventory: seq<GearItem>, categoryFilter: CategoryFilter,
                             maintenanceFilter: bool, nowMs: int): (r: seq<GearItem>)
    ensures forall g :: g in r <==> g in inventory && CategoryPasses(categoryFilter, g)
                                    && (maintenanceFilter ==> NeedsMaintenance(g, nowMs))
    ensures Subseq(r, inventory)
  {
    Filter(inventory, (g: GearItem) => Shown(g, categoryFilter, maintenanceFilter, nowMs))
  }

  /**
    The filter with both controls off shows the whole inventory; one category
    alone is the service's category filter; the maintenance switch alone is the
    service's maintenance query, whose test is the elapsed-time condition.
  */
  lemma FilteredInventorySpec(inventory: seq<GearItem>, c: Category, nowMs: int)
    ensures FilteredInventory(inventory, All, false, nowMs) == inventory
    ensures FilteredInventory(inventory, Only(c), false, nowMs) == FilterByCategory(inventory, c)
    ensures FilteredInventory(inventory, All, true, nowMs) == ItemsNeedingMaintenance(inventory, nowMs)
    ensures forall g :: g in FilteredInventory(inventory, All, true, nowMs) <==>
              g in inventory && g.lastMaintenance.Some? && g.maintenanceInterval.Some?
              && g.maintenanceInterval.value != 0
              && nowMs >= StartOf(g.lastMaintenance.value) + g.maintenanceInterval.value * MsPerDay
  {
    FilterKeepsAll(inventory, (g: GearItem) => Shown(g, All, false, nowMs));
    FilterExt(inventory, (g: GearItem) => Shown(g, Only(c), false, nowMs), (g: GearItem) => g.category == c);
    FilterExt(inventory, (g: GearItem) => Shown(g, All, true, nowMs), (g: GearItem) => NeedsMaintenance(g, nowMs));
    forall g ensures NeedsMaintenance(g, nowMs) <==>
                       g.lastMaintenance.Some? && g.maintenanceInterval.Some? && g.maintenanceInterval.value != 0
                       && nowMs >= StartOf(g.lastMaintenance.value) + g.maintenanceInterval.value * MsPerDay
    {
      NeedsMaintenanceIff(g, nowMs);
    }
  }

  /** The error the browser raises when the filter callback reads `needsMaintenance` before its declaration has run. */
  const UninitialisedBinding := "ReferenceError: Cannot access 'needsMaintenance' before initialization"

  /**
    `filteredInventory` as written: it is computed during render before the
    `needsMaintenance` constant is initialised, so the callback throws as soon as
    it runs for some item with the maintenance switch on.
  */
  function FilteredInventoryAsWritten(inventory: seq<GearItem>, categoryFilter: CategoryFilter,
                                      maintenanceFilter: bool, nowMs: int): (r: Result<seq<GearItem>>)
    ensures r.Err? <==> maintenanceFilter && inventory != []
    ensures r.Ok? ==> r.value == FilteredInventory(inventory, categoryFilter, maintenanceFilter, nowMs)
  {
    if inventory == [] then Ok([])
    else if maintenanceFilter then Err(UninitialisedBinding)
    else Ok(FilteredInventory(inventory, categoryFilter, false, nowMs))
  }

  /** An item that is due: the view as written fails to render it, the intended filter shows it. */
  lemma MaintenanceFilterThrows(g: GearItem, nowMs: int)
    requires NeedsMaintenance(g, nowMs)
    ensures FilteredInventoryAsWritten([g], All, true, nowMs) == Err(UninitialisedBinding)
    ensures FilteredInventory([g], All, true, nowMs) == [g]
  {
    FilterKeepsAll([g], (x: GearItem) => Shown(x, All, true, nowMs));
  }

  /** `toggleItemSelection`: a selected id is removed (every copy), another one appended. */
  function ToggleSelection(selected: seq<Id>, itemId: Id): (r: seq<Id>)
    ensures itemId in selected ==> itemId !in r && Subseq(r, selected)
                                   && forall x :: x != itemId ==> (x in r <==> x in selected)
    ensures itemId !in selected ==> r == selected + [itemId]
  {
    if itemId in selected then Filter(selected, x => x != itemId) else selected + [itemId]
  }

  /** Toggling twice restores membership, and restores the list itself when the id was not selected. */
  lemma ToggleSelectionTwice(selected: seq<Id>, itemId: Id)
    ensures forall x :: x in ToggleSelection(ToggleSelection(selected, itemId), itemId) <==> x in selected
    ensures itemId !in selected ==> ToggleSelection(ToggleSelection(selected, itemId), itemId) == selected
  {
    if itemId !in selected {
      FilterAppend(selected, [itemId], x => x != itemId);
      FilterKeepsAll(selected, x => x != itemId);
    }
  }

  /**
    `updateQuantity`: a negative quantity changes nothing; otherwise every item
    with the id, and the selected item when it has the id, gets the quantity.
  */
  function UpdateQuantity(v: GearView, itemId: Id, quantity: int): (r: GearView)
    ensures quantity < 0 ==> r == v
    ensures quantity >= 0 ==>
              |r.inventory| == |v.inventory|
              && (forall k :: 0 <= k < |v.inventory| ==>
                    r.inventory[k].(quantity := v.inventory[k].quantity) == v.inventory[k]
                    && r.inventory[k].quantity == if v.inventory[k].id == itemId then quantity else v.inventory[k].quantity)
              && r.gearSets == v.gearSets && r.selectedSet == v.selectedSet
              && (v.selectedGear.Some? && v.selectedGear.value.id == itemId ==>
                    r.selectedGear == Some(v.selectedGear.value.(quantity := quantity)))
              && (v.selectedGear.None? || v.selectedGear.value.id != itemId ==> r.selectedGear == v.selectedGear)
  {
    if quantity < 0 then v
    else
      var selected := match v.selectedGear
        case Some(g) => if g.id == itemId then Some(g.(quantity := quantity)) else v.selectedGear
        case None => None;
      v.(inventory := UpdateAll(v.inventory, GearId, itemId, (g: GearItem) => g.(quantity := quantity)),
         selectedGear := selected)
  }

  /** With unique ids, the view's copy after a quantity change is what the service stores. */
  lemma UpdateQuantityAgrees(v: GearView, itemId: Id, quantity: int)
    requires quantity >= 0 && UniqueKeys(v.inventory, GearId)
    ensures UpdateQuantity(v, itemId, quantity).inventory == QuantitySet(v.inventory, itemId, quantity)
  {
    UpdateAllUnique(v.inventory, GearId, itemId, (g: GearItem) => g.(quantity := quantity));
    FieldUpdatesSpec(v.inventory, itemId, quantity, 0);
    var a, b := UpdateQuantity(v, itemId, quantity).inventory, QuantitySet(v.inventory, itemId, quantity);
    assert forall k :: 0 <= k < |a| ==> a[k] == b[k];
  }

  /** `markMaintained`: every item with the id, and the selected item when it has it, is maintained today. */
  function MarkMaintained(v: GearView, itemId: Id, nowMs: int): (r: GearView)
    ensures |r.inventory| == |v.inventory|
    ensures forall k :: 0 <= k < |v.inventory| ==>
              r.inventory[k].(lastMaintenance := v.inventory[k].lastMaintenance) == v.inventory[k]
              && r.inventory[k].lastMaintenance ==
                   if v.inventory[k].id == itemId then Some(DayOf(nowMs)) else v.inventory[k].lastMaintenance
    ensures r.gearSets == v.gearSets && r.selectedSet == v.selectedSet
    ensures v.selectedGear.Some? && v.selectedGear.value.id == itemId ==>
              r.selectedGear == Some(v.selectedGear.value.(lastMaintenance := Some(DayOf(nowMs))))
    ensures v.selectedGear.None? || v.selectedGear.value.id != itemId ==> r.selectedGear == v.selectedGear
  {
    var today := DayOf(nowMs);
    var selected := match v.selectedGear
      case Some(g) => if g.id == itemId then Some(g.(lastMaintenance := Some(today))) else v.selectedGear
      case None => None;
    v.(inventory := UpdateAll(v.inventory, GearId, itemId, (g: GearItem) => g.(lastMaintenance := Some(today))),
       selectedGear := selected)
  }

  /** With unique ids the view's copy is what the service stores. */
  lemma MarkMaintainedSpec(v: GearView, itemId: Id, nowMs: int)
    requires UniqueKeys(v.inventory, GearId)
    ensures MarkMaintained(v, itemId, nowMs).inventory == MaintenanceSet(v.inventory, itemId, DayOf(nowMs))
  {
    var today := DayOf(nowMs);
    UpdateAllUnique(v.inventory, GearId, itemId, (g: GearItem) => g.(lastMaintenance := Some(today)));
  }

  /** An item just maintained with a positive interval is no longer due at that instant. */
  lemma MaintainedNotDue(v: GearView, itemId: Id, nowMs: int)
    ensures forall g :: g in MarkMaintained(v, itemId, nowMs).inventory && g.id == itemId
                        && g.maintenanceInterval.Some? && g.maintenanceInterval.value > 0
                        ==> !NeedsMaintenance(g, nowMs)
  {
    var a := MarkMaintained(v, itemId, nowMs).inventory;
    forall g | g in a && g.id == itemId && g.maintenanceInterval.Some? && g.maintenanceInterval.value > 0
      ensures !NeedsMaintenance(g, nowMs)
    {
      var k :| 0 <= k < |a| && a[k] == g;
      assert g.lastMaintenance == Some(DayOf(nowMs));
      assert DaysSince(nowMs, DayOf(nowMs)) == 0;
    }
  }

  /**
    The add-gear form. An empty category select is None; the interval field is
    None when left empty and otherwise holds the number `parseInt` reads from it.
  */
  datatype GearForm = GearForm(name: string, category: Option<Category>, brand: string, model: string,
                               notes: string, quantity: int, maintenanceInterval: Option<int>)

  /** A text field contributes its value only when it is non-empty. */
  function NonEmpty(s: string): (r: Option<string>)
    ensures r.None? <==> s == ""
    ensures r.Some? ==> r.value == s
  {
    if s == "" then None else Some(s)
  }

  /**
    `handleAddGear`: rejected without a name or a category; otherwise the new
    item's draft (its id is assigned by the service). Giving an interval also
    records today as the last maintenance. The form's category select has no
    empty option and starts at "rod", so the missing-category rejection is a
    guard the form itself never triggers.
  */
  function NewGearItem(form: GearForm, nowMs: int): (r: Result<GearItem>)
    ensures r.Err? <==> form.name == "" || form.category.None?
    ensures r.Ok? ==>
              var g := r.value;
              g.name == form.name && Some(g.category) == form.category && g.quantity == form.quantity
              && g.brand == NonEmpty(form.brand) && g.model == NonEmpty(form.model)
              && g.notes == NonEmpty(form.notes) && g.specs.None?
              && g.maintenanceInterval == form.maintenanceInterval
              && (g.lastMaintenance.Some? <==> form.maintenanceInterval.Some?)
              && (g.lastMaintenance.Some? ==> g.lastMaintenance.value == DayOf(nowMs))
  {
    if form.name == "" || form.category.None? then Err("Please fill in all required fields")
    else
      var maintained := if form.maintenanceInterval.Some? then Some(DayOf(nowMs)) else None;
      Ok(GearItem("", form.name, form.category.value, NonEmpty(form.brand), NonEmpty(form.model), None,
                  NonEmpty(form.notes), maintained, form.maintenanceInterval, form.quantity))
  }

  /** A new item with a positive interval is not due at the instant it is added. */
  lemma NewGearNotDue(form: GearForm, nowMs: int)
    requires NewGearItem(form, nowMs).Ok?
    requires form.maintenanceInterval.Some? && form.maintenanceInterval.value > 0
    ensures !NeedsMaintenance(NewGearItem(form, nowMs).value, nowMs)
  {
    assert DaysSince(nowMs, DayOf(nowMs)) == 0;
  }

  /** `handleAddGearSet`: rejected without a name or with no item selected; otherwise the new set's draft. */
  function NewGearSet(name: string, description: string, items: seq<Id>): (r: Result<GearSet>)
    ensures r.Err? <==> name == "" || items == []
    ensures r.Ok? ==> r.value.name == name && r.value.items == items && r.value.description == NonEmpty(description)
  {
    if name == "" || items == [] then Err("Please fill in the set name and select at least one item")
    else Ok(GearSet("", name, NonEmpty(description), items))
  }

  /**
    `handleDeleteGear` after the confirmation dialog: the item leaves the local
    inventory and the selection. The local gear sets are not pruned (only the
    stored ones are).
  */
  function DeleteGear(v: GearView, itemId: Id, confirmed: bool): (r: GearView)
    ensures !confirmed ==> r == v
    ensures confirmed ==> r.gearSets == v.gearSets && r.selectedSet == v.selectedSet
    ensures confirmed ==> forall g :: g in r.inventory <==> g in v.inventory && g.id != itemId
    ensures confirmed ==> Subseq(r.inventory, v.inventory)
    ensures confirmed ==> r.selectedGear == if v.selectedGear.Some? && v.selectedGear.value.id == itemId
                                            then None else v.selectedGear
  {
    if !confirmed then v
    else
      RemoveAllSpec(v.inventory, GearId, itemId);
      var selected := if v.selectedGear.Some? && v.selectedGear.value.id == itemId then None else v.selectedGear;
      v.(inventory := RemoveAll(v.inventory, GearId, itemId), selectedGear := selected)
  }

  /** `handleDeleteGearSet` after the confirmation dialog: the set leaves the local list and the selection. */
  function DeleteGearSet(v: GearView, setId: Id, confirmed: bool): (r: GearView)
    ensures !confirmed ==> r == v
    ensures confirmed ==> r.inventory == v.inventory && r.selectedGear == v.selectedGear
    ensures confirmed ==> forall s :: s in r.gearSets <==> s in v.gearSets && s.id != setId
    ensures confirmed ==> Subseq(r.gearSets, v.gearSets)
    ensures confirmed ==> r.selectedSet == if v.selectedSet.Some? && v.selectedSet.value.id == setId
                                           then None else v.selectedSet
  {
    if !confirmed then v
    else
      RemoveAllSpec(v.gearSets, SetId, setId);
      var selected := if v.selectedSet.Some? && v.selectedSet.value.id == setId then None else v.selectedSet;
      v.(gearSets := RemoveAll(v.gearSets, SetId, setId), selectedSet := selected)
  }
}
